/** The Bolt experiment runner: the steps of an experiment are executed in
    order, each retried while its operation raises, and a step that fails
    every attempt stops the run unless it asks to continue on error.
    What an operation does is outside the model: `raises(i, a)` says
    whether attempt `a` of step `i` raises, and with which message. */
module Bolt {
  import opened Wrappers

  /** One `[[steps]]` table of the experiment file. A missing
      `continue_on_error` reads as false. */
  datatype Step = Step(
    op: Option<string>,
    timeout: Option<int>,
    maxRetries: Option<int>,
    continueOnError: bool)

  /** The `execution` table of the system configuration; every field is
      missing when the configuration cannot be loaded. */
  datatype Execution = Execution(
    timeout: Option<int>,
    maxRetries: Option<int>,
    retryDelay: Option<int>)

  const DefaultTimeout := 3600
  const DefaultMaxRetries := 3
  const DefaultRetryDelay := 5

  /** The settings a step runs with. */
  datatype Settings = Settings(timeout: int, maxRetries: int, retryDelay: int)

  function SettingsOf(step: Step, exec: Execution): Settings {
    Settings(
      step.timeout.GetOr(exec.timeout.GetOr(DefaultTimeout)),
      step.maxRetries.GetOr(exec.maxRetries.GetOr(DefaultMaxRetries)),
      exec.retryDelay.GetOr(DefaultRetryDelay))
  }

  /** A step's own `timeout` and `max_retries` win over the system
      configuration, which wins over the defaults 3600, 3 and 5. */
  lemma SettingsPrecedence(step: Step, exec: Execution)
    ensures var s := SettingsOf(step, exec);
      && (step.timeout.Some? ==> s.timeout == step.timeout.value)
      && (step.timeout.None? && exec.timeout.Some? ==> s.timeout == exec.timeout.value)
      && (step.timeout.None? && exec.timeout.None? ==> s.timeout == 3600)
      && (step.maxRetries.Some? ==> s.maxRetries == step.maxRetries.value)
      && (step.maxRetries.None? && exec.maxRetries.Some? ==> s.maxRetries == exec.maxRetries.value)
      && (step.maxRetries.None? && exec.maxRetries.None? ==> s.maxRetries == 3)
      && s.retryDelay == exec.retryDelay.GetOr(5)
  {
  }

  /** What `_execute_operation` returns when it does not raise: a success
      record for the four known operations, an error record for any other.
      Both are non-empty dictionaries, so the runner counts both as done. */
  datatype OpResult = Succeeded(op: string) | UnknownOperation(error: string)

  predicate Known(op: string) {
    op == "search" || op == "cluster" || op == "summarize" || op == "publish"
  }

  function Execute(op: string): (r: OpResult)
    ensures r.Succeeded? <==> Known(op)
    ensures r.Succeeded? ==> r.op == op
    ensures r.UnknownOperation? ==> r.error == "Unknown operation: " + op
  {
    if Known(op) then Succeeded(op) else UnknownOperation("Unknown operation: " + op)
  }

  /** One entry of the run's `steps` list. */
  datatype Entry =
    | Completed(result: OpResult)
    | MissingOp(stepIndex: nat)
    | Failed(error: string, stepIndex: nat, step: Step)

  type Oracle = (nat, nat) -> Option<string>

  /** The first attempt in `[from, n)` of step `index` that does not raise. */
  function FirstSuccess(index: nat, from: nat, n: int, raises: Oracle): Option<nat>
    decreases n - from
  {
    if from >= n then None
    else if raises(index, from).None? then Some(from)
    else FirstSuccess(index, from + 1, n, raises)
  }

  /** `FirstSuccess` finds the earliest attempt that does not raise, and
      finds none exactly when every attempt raises. */
  lemma {:induction false} FirstSuccessFacts(index: nat, from: nat, n: int, raises: Oracle)
    ensures var f := FirstSuccess(index, from, n, raises);
      && (f.Some? ==>
            && from <= f.value < n
            && raises(index, f.value).None?
            && forall a :: from <= a < f.value ==> raises(index, a).Some?)
      && (f.None? <==> forall a :: from <= a < n ==> raises(index, a).Some?)
    decreases n - from
  {
    if from < n && raises(index, from).Some? {
      FirstSuccessFacts(index, from + 1, n, raises);
    }
  }

  /** The message of the last attempt, when there was one. */
  function LastError(index: nat, n: int, raises: Oracle): Option<string> {
    if n > 0 then raises(index, n - 1) else None
  }

  /** `last_error or "Unknown error"`. */
  function ErrorText(last: Option<string>): string {
    if last.Some? && last.value != "" then last.value else "Unknown error"
  }

  /** The entry step `i` adds to the results. */
  function StepEntry(step: Step, i: nat, exec: Execution, raises: Oracle): Entry {
    if step.op.None? then MissingOp(i)
    else
      var n := SettingsOf(step, exec).maxRetries + 1;
      if FirstSuccess(i, 0, n, raises).Some? then Completed(Execute(step.op.value))
      else Failed(ErrorText(LastError(i, n, raises)), i, step)
  }

  /** A failed step stops the run unless it asks to continue. A step
      without `op` never stops it. */
  predicate Stops(e: Entry, step: Step) {
    e.Failed? && !step.continueOnError
  }

  /** The entries the steps from `i` on add; the whole run is `RunFrom(steps, 0, ...)`. */
  function RunFrom(steps: seq<Step>, i: nat, exec: Execution, raises: Oracle): seq<Entry>
    decreases |steps| - i
  {
    if i >= |steps| then []
    else
      var e := StepEntry(steps[i], i, exec, raises);
      [e] + if Stops(e, steps[i]) then [] else RunFrom(steps, i + 1, exec, raises)
  }

  /** The shape of a run from step `i`: at most one entry per step, entry
      `k` belonging to step `i + k`; no step before the last entry
      stopped the run; and the run ends early only at a step that failed
      without `continue_on_error`. A whole run is the one from step 0. */
  lemma RunFromShape(steps: seq<Step>, i: nat, exec: Execution, raises: Oracle)
    requires i <= |steps|
    ensures var r := RunFrom(steps, i, exec, raises);
      && |r| <= |steps| - i
      && (forall k :: 0 <= k < |r| ==> r[k] == StepEntry(steps[i + k], i + k, exec, raises))
      && (forall k :: 0 <= k < |r| - 1 ==> !Stops(r[k], steps[i + k]))
      && (|r| < |steps| - i ==> |r| > 0 && Stops(r[|r| - 1], steps[i + |r| - 1]))
  {
    RunFromEntries(steps, i, exec, raises);
    RunFromStops(steps, i, exec, raises);
  }

  lemma {:induction false} RunFromEntries(steps: seq<Step>, i: nat, exec: Execution, raises: Oracle)
    requires i <= |steps|
    ensures var r := RunFrom(steps, i, exec, raises);
      && |r| <= |steps| - i
      && forall k :: 0 <= k < |r| ==> r[k] == StepEntry(steps[i + k], i + k, exec, raises)
    decreases |steps| - i
  {
    if i < |steps| {
      var e := StepEntry(steps[i], i, exec, raises);
      if !Stops(e, steps[i]) {
        RunFromEntries(steps, i + 1, exec, raises);
        var rest := RunFrom(steps, i + 1, exec, raises);
        var r := RunFrom(steps, i, exec, raises);
        assert r == [e] + rest;
        forall k | 0 < k < |r|
          ensures r[k] == rest[k - 1] && i + k == (i + 1) + (k - 1)
        {
        }
      }
    }
  }

  lemma {:induction false} RunFromStops(steps: seq<Step>, i: nat, exec: Execution, raises: Oracle)
    requires i <= |steps|
    ensures var r := RunFrom(steps, i, exec, raises);
      && |r| <= |steps| - i
      && (forall k :: 0 <= k < |r| - 1 ==> !Stops(r[k], steps[i + k]))
      && (|r| < |steps| - i ==> |r| > 0 && Stops(r[|r| - 1], steps[i + |r| - 1]))
    decreases |steps| - i
  {
    if i < |steps| {
      var e := StepEntry(steps[i], i, exec, raises);
      if !Stops(e, steps[i]) {
        RunFromStops(steps, i + 1, exec, raises);
        var rest := RunFrom(steps, i + 1, exec, raises);
        var r := RunFrom(steps, i, exec, raises);
        assert r == [e] + rest;
        forall k | 0 < k < |r|
          ensures r[k] == rest[k - 1] && i + k == (i + 1) + (k - 1)
        {
        }
      }
    }
  }

  /** One step of `RunFrom`, with the entries before it. */
  lemma RunFromCons(steps: seq<Step>, i: nat, exec: Execution, raises: Oracle, before: seq<Entry>)
    requires i < |steps|
    ensures var e := StepEntry(steps[i], i, exec, raises);
      && (Stops(e, steps[i]) ==> before + RunFrom(steps, i, exec, raises) == before + [e])
      && (!Stops(e, steps[i]) ==>
            before + RunFrom(steps, i, exec, raises) == (before + [e]) + RunFrom(steps, i + 1, exec, raises))
  {
  }

  /** A failed step records its index and the message of its last
      attempt; a step that completes had an attempt that did not raise
      among its first `max_retries + 1`. */
  lemma StepEntryFacts(step: Step, i: nat, exec: Execution, raises: Oracle)
    ensures var e := StepEntry(step, i, exec, raises);
      var n := SettingsOf(step, exec).maxRetries + 1;
      && (e.MissingOp? <==> step.op.None?)
      && (e.MissingOp? ==> e.stepIndex == i)
      && (e.Completed? ==> exists a :: 0 <= a < n && raises(i, a).None?)
      && (e.Failed? ==>
            && e.stepIndex == i && e.step == step
            && forall a :: 0 <= a < n ==> raises(i, a).Some?)
      && (step.op.Some? && (forall a :: 0 <= a < n ==> raises(i, a).Some?) ==> e.Failed?)
  {
    var n := SettingsOf(step, exec).maxRetries + 1;
    FirstSuccessFacts(i, 0, n, raises);
  }

  /** The attempts of one step: at most `max_retries + 1` of them,
      stopping at the first that does not raise. `attempts` counts the
      calls of the operation. */
  method Attempt(op: string, index: nat, maxRetries: int, raises: Oracle)
    returns (result: Option<OpResult>, lastError: Option<string>, attempts: nat)
    ensures result.Some? <==> FirstSuccess(index, 0, maxRetries + 1, raises).Some?
    ensures result.Some? ==>
      result.value == Execute(op) && attempts == FirstSuccess(index, 0, maxRetries + 1, raises).value + 1
    ensures result.None? ==>
      && lastError == LastError(index, maxRetries + 1, raises)
      && attempts == if maxRetries + 1 > 0 then maxRetries + 1 else 0
  {
    result, lastError, attempts := None, None, 0;
    var retry: nat := 0;
    while retry < maxRetries + 1
      invariant retry <= maxRetries + 1 || retry == 0
      invariant attempts == retry
      invariant FirstSuccess(index, 0, maxRetries + 1, raises) == FirstSuccess(index, retry, maxRetries + 1, raises)
      invariant lastError == if retry == 0 then None else raises(index, retry - 1)
    {
      attempts := attempts + 1;
      var raised := raises(index, retry);
      if raised.None? {
        result := Some(Execute(op));
        return;
      }
      lastError := raised;
      retry := retry + 1;
    }
  }

  /** The body of the loop of `run` for step `i`: the entry it adds. */
  method RunStep(step: Step, i: nat, exec: Execution, raises: Oracle) returns (entry: Entry)
    ensures entry == StepEntry(step, i, exec, raises)
  {
    if step.op.None? {
      return MissingOp(i);
    }
    var settings := SettingsOf(step, exec);
    var result, lastError, attempts := Attempt(step.op.value, i, settings.maxRetries, raises);
    if result.Some? {
      entry := Completed(result.value);
    } else {
      entry := Failed(ErrorText(lastError), i, step);
    }
  }

  /** No entry records an error. */
  predicate AllCompleted(entries: seq<Entry>) {
    forall k :: 0 <= k < |entries| ==> entries[k].Completed?
  }

  lemma AllCompletedSnoc(entries: seq<Entry>, e: Entry)
    ensures AllCompleted(entries + [e]) <==> AllCompleted(entries) && e.Completed?
  {
    assert forall k :: 0 <= k < |entries| ==> (entries + [e])[k] == entries[k];
    assert (entries + [e])[|entries|] == e;
  }

  /** A step naming an operation the runner does not know still counts as
      done once an attempt does not raise: `_execute_operation` returns an
      error record instead of raising, and that record is non-empty, so
      the step is completed with the error message, does not stop the
      run, and leaves the run's success as the later steps decide it. */
  lemma UnknownOperationCompletes(steps: seq<Step>, i: nat, exec: Execution, raises: Oracle)
    requires i < |steps| && steps[i].op.Some? && !Known(steps[i].op.value)
    requires exists a :: 0 <= a < SettingsOf(steps[i], exec).maxRetries + 1 && raises(i, a).None?
    ensures var e := StepEntry(steps[i], i, exec, raises);
      && e == Completed(UnknownOperation("Unknown operation: " + steps[i].op.value))
      && !Stops(e, steps[i])
      && RunFrom(steps, i, exec, raises) == [e] + RunFrom(steps, i + 1, exec, raises)
      && (AllCompleted(RunFrom(steps, i, exec, raises)) <==> AllCompleted(RunFrom(steps, i + 1, exec, raises)))
  {
    var n := SettingsOf(steps[i], exec).maxRetries + 1;
    FirstSuccessFacts(i, 0, n, raises);
    var e := StepEntry(steps[i], i, exec, raises);
    var rest := RunFrom(steps, i + 1, exec, raises);
    assert e.Completed?;
    assert forall k :: 0 <= k < |rest| ==> ([e] + rest)[k + 1] == rest[k];
  }

  /** The `results` record of a finished run; times are clock readings. */
  datatype RunResults = RunResults(
    experimentName: string,
    executionTime: int,
    completionTime: int,
    durationSeconds: int,
    steps: seq<Entry>,
    success: bool)

  /** The parsed experiment file. */
  datatype Config = Config(name: Option<string>, steps: Option<seq<Step>>)

  class BoltExperiment {
    var config: Config
    var execution: Execution
    var results: Option<RunResults>
    var startTime: Option<int>
    var endTime: Option<int>

    /** The experiment file and the system configuration, already loaded. */
    constructor(config: Config, execution: Execution)
      ensures this.config == config && this.execution == execution
      ensures results.None? && startTime.None? && endTime.None?
    {
      this.config := config;
      this.execution := execution;
      results := None;
      startTime := None;
      endTime := None;
    }

    /** `run`, started at clock reading `start` and finished at `finish`. */
    method Run(start: int, finish: int, raises: Oracle) returns (success: bool)
      modifies this
      ensures config == old(config) && execution == old(execution)
      ensures startTime == Some(start)
      ensures config.steps.None? ==>
        !success && results == old(results) && endTime == old(endTime)
      ensures config.steps.Some? ==>
        var entries := RunFrom(config.steps.value, 0, execution, raises);
        && endTime == Some(finish)
        && results == Some(RunResults(config.name.GetOr("Unnamed"), start, finish, finish - start,
                                       entries, success))
        && (success <==> AllCompleted(entries))
    {
      startTime := Some(start);
      if config.steps.None? {
        return false;
      }
      var steps, exec := config.steps.value, execution;
      var entries: seq<Entry> := [];
      success := true;
      var i := 0;
      while i < |steps|
        invariant i <= |steps|
        invariant entries + RunFrom(steps, i, exec, raises) == RunFrom(steps, 0, exec, raises)
        invariant success <==> AllCompleted(entries)
        invariant startTime == Some(start) && config == old(config) && execution == old(execution)
      {
        var entry := RunStep(steps[i], i, exec, raises);
        AllCompletedSnoc(entries, entry);
        RunFromCons(steps, i, exec, raises, entries);
        entries := entries + [entry];
        if !entry.Completed? {
          success := false;
        }
        if Stops(entry, steps[i]) {
          assert entries == RunFrom(steps, 0, exec, raises);
          break;
        }
        i := i + 1;
      }
      assert entries == RunFrom(steps, 0, exec, raises);
      endTime := Some(finish);
      results := Some(RunResults(config.name.GetOr("Unnamed"), start, finish, finish - start,
                                 entries, success));
    }
  }
}
