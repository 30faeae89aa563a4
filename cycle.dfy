/** The toroidal cycle manager: a cycle alternates LightFace exploration
    phases and DarkFace synthesis phases, drives the two engines, and
    closes with a summary built from statistics over its phases. */
module Cycles {
  import opened Wrappers
  import opened Ids
  import Seqs
  import Store
  import Sorting
  import LF = LightFace
  import DF = DarkFace

  type Time = int

  datatype Status = Active | Completed

  /** `current_phase`: "init", "lightface", "darkface" or "complete". */
  datatype Stage = Init | InLightface | InDarkface | Complete

  /** The simulated results `complete_phase` records. */
  datatype LightResults = LightResults(nodesCreated: int, branchesCreated: int, uniqueTags: int)
  datatype DarkResults = DarkResults(clustersCreated: int, nodesCreated: int, qualityScore: real)

  datatype Phase =
    | LightPhase(explorationId: string, topic: string, startTime: Time, status: Status, endTime: Time,
                 completionTime: Option<Time>, lightResults: Option<LightResults>)
    | DarkPhase(synthesisId: string, explorationId: string, title: string, startTime: Time, status: Status,
                completionTime: Option<Time>, darkResults: Option<DarkResults>)

  /** The words the summary uses for the average quality score. */
  datatype Band = Excellent | VeryHigh | High | Good | Moderate

  /** What `_generate_cycle_summary` fills into its template. */
  datatype Stats = Stats(
    name: string,
    topics: seq<string>,
    startTime: Time,
    endTime: Option<Time>,
    explorationNodes: int,
    explorationBranches: int,
    synthesisClusters: int,
    synthesisNodes: int,
    avgQuality: real,
    band: Band)

  /** A summary is the caller's text, or the template filled with `stats`. */
  datatype Summary = Written(text: string) | Generated(stats: Stats)

  datatype Cycle = Cycle(
    id: string,
    name: string,
    configName: string,
    startTime: Time,
    status: Status,
    phases: seq<Phase>,
    currentPhase: Stage,
    createdAt: Time,
    updatedAt: Time,
    summary: Option<Summary>,
    completionTime: Option<Time>)

  /** The settings the manager reads from its policy file; a missing key
      is `None`. */
  datatype Config = Config(
    defaultCycleName: Option<string>,
    lightfaceTopic: Option<string>,
    lightfaceDuration: Option<int>,
    darkfaceTitle: Option<string>)

  /** The values `complete_phase` draws with `random.randint` and
      `random.uniform`. */
  datatype Draws = Draws(nodesCreated: int, branchesCreated: int, uniqueTags: int, quality: real)

  predicate InRange(d: Draws) {
    && 10 <= d.nodesCreated <= 30
    && 5 <= d.branchesCreated <= 20
    && 8 <= d.uniqueTags <= 15
    && 0.7 <= d.quality <= 0.95
  }

  datatype Error =
    | CycleNotFound(id: string)
    | CycleNotActive(id: string)
    | NoLightfacePhase(id: string)
    | NoActivePhase(id: string)
    | PhaseNotActive(kind: string)
    | ExplorationFailed(explorerError: LF.Error)
    | SynthesisFailed(synthesizerError: DF.Error)

  const DefaultCycleName := "Toroidal Cycle"
  const DefaultTopic := "cognitive architecture"
  const DefaultDuration := 2
  /** `complete_phase` clusters by tag into this many clusters ... */
  const SynthesisClusters := 3
  /** ... adds this many theme nodes ... */
  const SynthesisThemes := 3
  /** ... and records this many synthesis nodes. */
  const RecordedSynthesisNodes := 4
  const ThemeContent := "This synthesis theme explores various aspects of the exploration..."
  const SynthesisSummary := "The synthesis identified several key themes and integrated them into a cohesive framework."

  function Kind(p: Phase): string {
    if p.LightPhase? then "lightface" else "darkface"
  }

  function Last(c: Cycle): Phase
    requires c.phases != []
  {
    c.phases[|c.phases| - 1]
  }

  // ---------------------------------------------------------------------
  // The cycle document and its invariant

  /** The stage the last phase calls for: none yet, the kind of an active
      last phase, or complete once the last phase is. */
  function StageOf(phases: seq<Phase>): Stage {
    if phases == [] then Init
    else
      var last := phases[|phases| - 1];
      if last.status == Completed then Complete
      else if last.LightPhase? then InLightface
      else InDarkface
  }

  /** A phase has results and a completion time exactly when it is
      completed, and its results lie in the ranges they are drawn from. */
  predicate PhaseOk(p: Phase) {
    match p
    case LightPhase(_, _, _, status, _, done, results) =>
      && (status == Completed <==> done.Some?)
      && (status == Completed <==> results.Some?)
      && (results.Some? ==>
            && 10 <= results.value.nodesCreated <= 30
            && 5 <= results.value.branchesCreated <= 20
            && 8 <= results.value.uniqueTags <= 15)
    case DarkPhase(_, _, _, _, status, done, results) =>
      && (status == Completed <==> done.Some?)
      && (status == Completed <==> results.Some?)
      && (results.Some? ==>
            && results.value.clustersCreated == SynthesisClusters
            && results.value.nodesCreated == RecordedSynthesisNodes
            && 0.7 <= results.value.qualityScore <= 0.95)
  }

  /** The shape every stored cycle keeps: `current_phase` mirrors the last
      phase, every phase is well formed, and a cycle has a summary and a
      completion time exactly when it is completed, which it never is
      while a phase is in progress. */
  ghost predicate CycleOk(id: string, c: Cycle) {
    && c.id == id
    && c.currentPhase == StageOf(c.phases)
    && (forall i :: 0 <= i < |c.phases| ==> PhaseOk(c.phases[i]))
    && (c.status == Completed <==> c.summary.Some?)
    && (c.status == Completed <==> c.completionTime.Some?)
    && (c.status == Completed ==> c.currentPhase == Init || c.currentPhase == Complete)
  }

  ghost predicate ValidStore(cycles: map<string, Cycle>) {
    forall id :: id in cycles ==> CycleOk(id, cycles[id])
  }

  /** Loading a cycle for a phase operation: it must exist and be active. */
  function Load(cycles: map<string, Cycle>, id: string): (r: Result<Cycle, Error>)
    ensures id !in cycles <==> r == Failure(CycleNotFound(id))
    ensures id in cycles && cycles[id].status != Active <==> r == Failure(CycleNotActive(id))
    ensures r.Success? <==> id in cycles && cycles[id].status == Active
    ensures r.Success? ==> r.value == cycles[id]
  {
    if id !in cycles then Failure(CycleNotFound(id))
    else if cycles[id].status != Active then Failure(CycleNotActive(id))
    else Success(cycles[id])
  }

  // ---------------------------------------------------------------------
  // Transitions of a cycle document

  function Began(id: string, name: string, configName: string, now: Time): Cycle {
    Cycle(id, name, configName, now, Active, [], Init, now, now, None, None)
  }

  function WithPhase(c: Cycle, p: Phase, stage: Stage, now: Time): (r: Cycle)
    ensures c.phases <= r.phases && |r.phases| == |c.phases| + 1 && r.phases[|c.phases|] == p
  {
    c.(phases := c.phases + [p], currentPhase := stage, updatedAt := now)
  }

  /** The completed form of a phase, with the results drawn for it. */
  function Closed(p: Phase, d: Draws, now: Time): (r: Phase)
    ensures r.status == Completed && r.completionTime == Some(now)
    ensures Kind(r) == Kind(p) && r.explorationId == p.explorationId
    ensures InRange(d) ==> PhaseOk(r)
  {
    match p
    case LightPhase(_, _, _, _, _, _, _) =>
      p.(status := Completed, completionTime := Some(now),
         lightResults := Some(LightResults(d.nodesCreated, d.branchesCreated, d.uniqueTags)))
    case DarkPhase(_, _, _, _, _, _, _) =>
      p.(status := Completed, completionTime := Some(now),
         darkResults := Some(DarkResults(SynthesisClusters, RecordedSynthesisNodes, d.quality)))
  }

  /** Replaces the last phase; every earlier phase stays as it was. */
  function WithLastClosed(c: Cycle, p: Phase, now: Time): (r: Cycle)
    requires c.phases != []
    ensures |r.phases| == |c.phases| && r.phases[..|c.phases| - 1] == c.phases[..|c.phases| - 1]
    ensures r.phases[|c.phases| - 1] == p
  {
    c.(phases := c.phases[..|c.phases| - 1] + [p], currentPhase := Complete, updatedAt := now)
  }

  function SummaryOf(given: Option<string>, c: Cycle): Summary {
    if given.Some? then Written(given.value) else Generated(StatsOf(c))
  }

  function Finished(c: Cycle, given: Option<string>, now: Time): Cycle {
    c.(status := Completed, summary := Some(SummaryOf(given, c)), completionTime := Some(now), updatedAt := now)
  }

  lemma BeganOk(id: string, name: string, configName: string, now: Time)
    ensures CycleOk(id, Began(id, name, configName, now))
  {
  }

  /** Appending an active phase of the stage's kind keeps a cycle well formed. */
  lemma WithPhaseOk(id: string, c: Cycle, p: Phase, stage: Stage, now: Time)
    requires CycleOk(id, c) && c.status == Active
    requires PhaseOk(p) && p.status == Active
    requires stage == (if p.LightPhase? then InLightface else InDarkface)
    ensures CycleOk(id, WithPhase(c, p, stage, now))
  {
    var r := WithPhase(c, p, stage, now);
    forall i | 0 <= i < |r.phases| ensures PhaseOk(r.phases[i]) {
      if i < |c.phases| {
        assert r.phases[i] == c.phases[i];
      }
    }
  }

  lemma WithLastClosedOk(id: string, c: Cycle, d: Draws, now: Time)
    requires CycleOk(id, c) && c.status == Active && c.phases != []
    requires InRange(d)
    ensures CycleOk(id, WithLastClosed(c, Closed(Last(c), d, now), now))
  {
    var r := WithLastClosed(c, Closed(Last(c), d, now), now);
    forall i | 0 <= i < |r.phases| ensures PhaseOk(r.phases[i]) {
      if i < |c.phases| - 1 {
        assert r.phases[i] == r.phases[..|c.phases| - 1][i] == c.phases[i];
      }
    }
  }

  lemma UpdateTwice<K, V>(m: map<K, V>, k: K, a: V, b: V)
    ensures m[k := a][k := b] == m[k := b]
  {
  }

  /** Completing a cycle outside a phase keeps it well formed. */
  lemma FinishedOk(id: string, c: Cycle, given: Option<string>, now: Time)
    requires CycleOk(id, c) && c.status == Active
    requires c.currentPhase == Init || c.currentPhase == Complete
    ensures CycleOk(id, Finished(c, given, now))
  {
  }

  // ---------------------------------------------------------------------
  // Several phases may be active at once

  function ActiveCount(phases: seq<Phase>): nat {
    if phases == [] then 0
    else ActiveCount(phases[..|phases| - 1]) + (if phases[|phases| - 1].status == Active then 1 else 0)
  }

  /** Starting a phase does not look at the phase in progress: each start
      adds one active phase to those already there. */
  lemma StartAddsActive(c: Cycle, p: Phase, stage: Stage, now: Time)
    requires p.status == Active
    ensures ActiveCount(WithPhase(c, p, stage, now).phases) == ActiveCount(c.phases) + 1
  {
    assert (c.phases + [p])[..|c.phases|] == c.phases;
  }

  /** Two LightFace phases started one after the other leave a well-formed
      cycle with two active phases. */
  lemma TwoActivePhases(id: string, now: Time)
    ensures var p := LightPhase("explore_a", DefaultTopic, now, Active, now, None, None);
            var q := LightPhase("explore_b", DefaultTopic, now, Active, now, None, None);
            var c := WithPhase(WithPhase(Began(id, DefaultCycleName, "default.yaml", now), p, InLightface, now),
                               q, InLightface, now);
            CycleOk(id, c) && ActiveCount(c.phases) == 2
  {
    var p := LightPhase("explore_a", DefaultTopic, now, Active, now, None, None);
    var q := LightPhase("explore_b", DefaultTopic, now, Active, now, None, None);
    var c0 := Began(id, DefaultCycleName, "default.yaml", now);
    var c1 := WithPhase(c0, p, InLightface, now);
    WithPhaseOk(id, c0, p, InLightface, now);
    WithPhaseOk(id, c1, q, InLightface, now);
    StartAddsActive(c0, p, InLightface, now);
    StartAddsActive(c1, q, InLightface, now);
  }

  // ---------------------------------------------------------------------
  // Phase filters and summary statistics

  function Lightface(phases: seq<Phase>): (r: seq<Phase>)
    ensures forall p :: p in r <==> p in phases && p.LightPhase?
    ensures |r| <= |phases|
  {
    if phases == [] then []
    else
      var last := phases[|phases| - 1];
      Lightface(phases[..|phases| - 1]) + (if last.LightPhase? then [last] else [])
  }

  function Darkface(phases: seq<Phase>): (r: seq<Phase>)
    ensures forall p :: p in r <==> p in phases && p.DarkPhase?
    ensures |r| <= |phases|
  {
    if phases == [] then []
    else
      var last := phases[|phases| - 1];
      Darkface(phases[..|phases| - 1]) + (if last.DarkPhase? then [last] else [])
  }

  /** The topics of the LightFace phases, in order. */
  function Topics(ps: seq<Phase>): (r: seq<string>)
    ensures |r| <= |ps|
  {
    if ps == [] then []
    else
      var last := ps[|ps| - 1];
      Topics(ps[..|ps| - 1]) + (if last.LightPhase? then [last.topic] else [])
  }

  function ExplorationNodes(p: Phase): int {
    if p.LightPhase? && p.lightResults.Some? then p.lightResults.value.nodesCreated else 0
  }

  function ExplorationBranches(p: Phase): int {
    if p.LightPhase? && p.lightResults.Some? then p.lightResults.value.branchesCreated else 0
  }

  function SynthesisClustersOf(p: Phase): int {
    if p.DarkPhase? && p.darkResults.Some? then p.darkResults.value.clustersCreated else 0
  }

  function SynthesisNodesOf(p: Phase): int {
    if p.DarkPhase? && p.darkResults.Some? then p.darkResults.value.nodesCreated else 0
  }

  function QualityOf(p: Phase): real {
    if p.DarkPhase? && p.darkResults.Some? then p.darkResults.value.qualityScore else 0.0
  }

  /** The total of `f` over the phases; phases without results add 0. */
  function Sum(ps: seq<Phase>, f: Phase -> int): int {
    if ps == [] then 0 else Sum(ps[..|ps| - 1], f) + f(ps[|ps| - 1])
  }

  function QualitySum(ps: seq<Phase>): real {
    if ps == [] then 0.0 else QualitySum(ps[..|ps| - 1]) + QualityOf(ps[|ps| - 1])
  }

  /** The summed score divided by the number of DarkFace phases, with or
      without results; 0 when there are none. */
  function Average(ds: seq<Phase>): real {
    if |ds| > 0 then QualitySum(ds) / (|ds| as real) else 0.0
  }

  function QualityBand(score: real): (b: Band)
    ensures b == Excellent <==> score >= 0.9
    ensures b == VeryHigh <==> 0.8 <= score < 0.9
    ensures b == High <==> 0.7 <= score < 0.8
    ensures b == Good <==> 0.6 <= score < 0.7
    ensures b == Moderate <==> score < 0.6
  {
    if score >= 0.9 then Excellent
    else if score >= 0.8 then VeryHigh
    else if score >= 0.7 then High
    else if score >= 0.6 then Good
    else Moderate
  }

  function Rank(b: Band): nat {
    match b
    case Moderate => 0
    case Good => 1
    case High => 2
    case VeryHigh => 3
    case Excellent => 4
  }

  /** A higher score never gets a lower band. */
  lemma BandMonotone(a: real, b: real)
    requires a <= b
    ensures Rank(QualityBand(a)) <= Rank(QualityBand(b))
  {
  }

  /** What the summary reports about a cycle. The end date is the cycle's
      completion time as it stands when the summary is generated. */
  function StatsOf(c: Cycle): Stats {
    var ls, ds := Lightface(c.phases), Darkface(c.phases);
    Stats(c.name, Topics(ls), c.startTime, c.completionTime,
          Sum(ls, ExplorationNodes), Sum(ls, ExplorationBranches),
          Sum(ds, SynthesisClustersOf), Sum(ds, SynthesisNodesOf),
          Average(ds), QualityBand(Average(ds)))
  }

  /** With every LightFace phase of a well-formed cycle carrying results,
      the summary counts 10 to 30 nodes and 5 to 20 branches for each
      completed exploration, 3 clusters and 4 nodes for each completed
      synthesis, and an average score of at most 0.95. */
  lemma SummaryBounds(id: string, c: Cycle)
    requires CycleOk(id, c)
    ensures var st, ls, ds := StatsOf(c), Lightface(c.phases), Darkface(c.phases);
            && 10 * WithResults(ls) <= st.explorationNodes <= 30 * WithResults(ls)
            && 5 * WithResults(ls) <= st.explorationBranches <= 20 * WithResults(ls)
            && st.synthesisClusters == SynthesisClusters * WithResults(ds)
            && st.synthesisNodes == RecordedSynthesisNodes * WithResults(ds)
            && 0.0 <= st.avgQuality <= 0.95
            && st.band == QualityBand(st.avgQuality)
  {
    var ls := Lightface(c.phases);
    forall i | 0 <= i < |ls| ensures PhaseOk(ls[i]) && ls[i].LightPhase? {
      assert ls[i] in ls;
      var j :| 0 <= j < |c.phases| && c.phases[j] == ls[i];
    }
    ExplorationTotals(ls);
    DarkfaceOk(c.phases);
    SynthesisTotals(Darkface(c.phases));
    AverageBounds(id, c);
  }

  /** The accumulation loops of `_generate_cycle_summary`. */
  method SummaryStats(c: Cycle) returns (st: Stats)
    ensures st == StatsOf(c)
  {
    var topics, nodes, branches := ExplorationSums(Lightface(c.phases));
    var clusters, synthNodes, quality := SynthesisSums(Darkface(c.phases));
    if |Darkface(c.phases)| > 0 {
      quality := quality / (|Darkface(c.phases)| as real);
    }
    st := Stats(c.name, topics, c.startTime, c.completionTime, nodes, branches, clusters, synthNodes,
                quality, QualityBand(quality));
  }

  /** The loop over the LightFace phases: their topics, and the nodes and
      branches of those with results. */
  method ExplorationSums(ls: seq<Phase>) returns (topics: seq<string>, nodes: int, branches: int)
    ensures topics == Topics(ls)
    ensures nodes == Sum(ls, ExplorationNodes) && branches == Sum(ls, ExplorationBranches)
  {
    topics, nodes, branches := [], 0, 0;
    for i := 0 to |ls|
      invariant topics == Topics(ls[..i])
      invariant nodes == Sum(ls[..i], ExplorationNodes) && branches == Sum(ls[..i], ExplorationBranches)
    {
      assert ls[..i + 1][..i] == ls[..i];
      var p := ls[i];
      if p.LightPhase? {
        topics := topics + [p.topic];
        if p.lightResults.Some? {
          nodes := nodes + p.lightResults.value.nodesCreated;
          branches := branches + p.lightResults.value.branchesCreated;
        }
      }
    }
    assert ls[..|ls|] == ls;
  }

  /** The loop over the DarkFace phases: the clusters, nodes and scores of
      those with results. */
  method SynthesisSums(ds: seq<Phase>) returns (clusters: int, synthNodes: int, quality: real)
    ensures clusters == Sum(ds, SynthesisClustersOf) && synthNodes == Sum(ds, SynthesisNodesOf)
    ensures quality == QualitySum(ds)
  {
    clusters, synthNodes, quality := 0, 0, 0.0;
    for i := 0 to |ds|
      invariant clusters == Sum(ds[..i], SynthesisClustersOf) && synthNodes == Sum(ds[..i], SynthesisNodesOf)
      invariant quality == QualitySum(ds[..i])
    {
      assert ds[..i + 1][..i] == ds[..i];
      var p := ds[i];
      if p.DarkPhase? && p.darkResults.Some? {
        clusters := clusters + p.darkResults.value.clustersCreated;
        synthNodes := synthNodes + p.darkResults.value.nodesCreated;
        quality := quality + p.darkResults.value.qualityScore;
      }
    }
    assert ds[..|ds|] == ds;
  }

  /** The main topic: the first LightFace topic, if any. */
  function MainTopic(topics: seq<string>): string {
    if topics == [] then "the domain" else topics[0]
  }

  /** The number of phases in `ps` that carry results. */
  function WithResults(ps: seq<Phase>): nat {
    if ps == [] then 0
    else
      var p := ps[|ps| - 1];
      WithResults(ps[..|ps| - 1]) + (if (p.LightPhase? && p.lightResults.Some?) || (p.DarkPhase? && p.darkResults.Some?) then 1 else 0)
  }

  lemma {:induction false} WithResultsAtMost(ps: seq<Phase>)
    ensures WithResults(ps) <= |ps|
  {
    if ps != [] {
      WithResultsAtMost(ps[..|ps| - 1]);
    }
  }

  /** Each LightFace phase with results adds between 10 and 30 nodes and
      between 5 and 20 branches. */
  lemma {:induction false} ExplorationTotals(ps: seq<Phase>)
    requires forall i :: 0 <= i < |ps| ==> PhaseOk(ps[i]) && ps[i].LightPhase?
    ensures 10 * WithResults(ps) <= Sum(ps, ExplorationNodes) <= 30 * WithResults(ps)
    ensures 5 * WithResults(ps) <= Sum(ps, ExplorationBranches) <= 20 * WithResults(ps)
  {
    if ps != [] {
      ExplorationTotals(ps[..|ps| - 1]);
    }
  }

  /** Each DarkFace phase with results adds 3 clusters, 4 nodes and a
      score between 0.7 and 0.95. */
  lemma {:induction false} SynthesisTotals(ps: seq<Phase>)
    requires forall i :: 0 <= i < |ps| ==> PhaseOk(ps[i]) && ps[i].DarkPhase?
    ensures Sum(ps, SynthesisClustersOf) == SynthesisClusters * WithResults(ps)
    ensures Sum(ps, SynthesisNodesOf) == RecordedSynthesisNodes * WithResults(ps)
    ensures 0.7 * (WithResults(ps) as real) <= QualitySum(ps) <= 0.95 * (WithResults(ps) as real)
  {
    if ps != [] {
      SynthesisTotals(ps[..|ps| - 1]);
    }
  }

  lemma DarkfaceOk(phases: seq<Phase>)
    requires forall i :: 0 <= i < |phases| ==> PhaseOk(phases[i])
    ensures forall i :: 0 <= i < |Darkface(phases)| ==>
              PhaseOk(Darkface(phases)[i]) && Darkface(phases)[i].DarkPhase?
  {
    var ds := Darkface(phases);
    forall i | 0 <= i < |ds| ensures PhaseOk(ds[i]) && ds[i].DarkPhase? {
      assert ds[i] in ds;
      var j :| 0 <= j < |phases| && phases[j] == ds[i];
    }
  }

  lemma AverageOf(sum: real, k: real, n: real)
    requires 0.0 <= k <= n && 0.0 < n
    requires 0.7 * k <= sum <= 0.95 * k
    ensures 0.0 <= sum / n <= 0.95
    ensures k == n ==> 0.7 <= sum / n
  {
    assert sum / n * n == sum;
  }

  /** In a well-formed cycle the average score never exceeds 0.95; once
      every DarkFace phase has results it is at least 0.7, so the band is
      "high" or better. */
  lemma AverageBounds(id: string, c: Cycle)
    requires CycleOk(id, c)
    ensures var ds := Darkface(c.phases);
            && 0.0 <= Average(ds) <= 0.95
            && (ds != [] && WithResults(ds) == |ds| ==>
                  0.7 <= Average(ds) && Rank(QualityBand(Average(ds))) >= Rank(High))
  {
    var ds := Darkface(c.phases);
    DarkfaceOk(c.phases);
    SynthesisTotals(ds);
    WithResultsAtMost(ds);
    if ds != [] {
      AverageOf(QualitySum(ds), WithResults(ds) as real, |ds| as real);
    }
  }

  // ---------------------------------------------------------------------
  // Listing

  predicate NewerFirst(a: Cycle, b: Cycle) {
    a.startTime >= b.startTime
  }

  function Listed(status: Option<Status>): (string, Cycle) -> bool {
    (key: string, c: Cycle) => "cycle_" <= key && (status.None? || c.status == status.value)
  }

  /** A listing is sorted newest first and holds exactly the cycle files
      with the requested status. */
  lemma ListingIsSortedSelection(keys: seq<string>, store: map<string, Cycle>, status: Option<Status>)
    requires forall k :: k in keys <==> k in store
    ensures var listed := Sorting.SortBy(Store.Collected(keys, store, Listed(status)), NewerFirst);
      && Sorting.SortedBy(listed, NewerFirst)
      && (forall c :: c in listed ==> (status.None? || c.status == status.value)
                                      && exists k :: k in store && "cycle_" <= k && c == store[k])
      && (forall k :: k in store && "cycle_" <= k && (status.None? || store[k].status == status.value) ==>
                        store[k] in listed)
  {
    Store.Listing(keys, store, Listed(status), NewerFirst);
  }

  /** The theme nodes `complete_phase` adds to a synthesis that already
      holds `base` nodes. */
  function Themes(base: nat, n: nat, stamp: string, now: Time): (r: seq<DF.SynthesisNode>)
    ensures |r| == n
  {
    if n == 0 then []
    else Themes(base, n - 1, stamp, now)
         + [DF.SynthesisNode(Indexed("synth_node_" + stamp, base + n - 1), "Synthesis theme " + Decimal(n),
                             ThemeContent, None, [], now)]
  }

  /** A synthesis after the first `i` theme nodes. */
  function WithThemes(s: DF.SynthesisSession, i: nat, stamp: string, now: Time): (r: DF.SynthesisSession)
    ensures |r.nodes| == |s.nodes| + i
  {
    if i == 0 then s else s.(nodes := s.nodes + Themes(|s.nodes|, i, stamp, now), updatedAt := now)
  }

  lemma WithThemesStep(s: DF.SynthesisSession, i: nat, stamp: string, now: Time)
    ensures var t := WithThemes(s, i, stamp, now);
            WithThemes(s, i + 1, stamp, now)
              == t.(nodes := t.nodes + [DF.SynthesisNode(Indexed("synth_node_" + stamp, |t.nodes|),
                                                         "Synthesis theme " + Decimal(i + 1),
                                                         ThemeContent, None, [], now)],
                    updatedAt := now)
  {
    assert s.nodes + Themes(|s.nodes|, i + 1, stamp, now)
        == s.nodes + Themes(|s.nodes|, i, stamp, now) + [Themes(|s.nodes|, i + 1, stamp, now)[i]];
  }

  /** Clustering by tag into three clusters fails for this synthesis. */
  ghost predicate ClusterBlocked(sessions: map<string, DF.SynthesisSession>,
                                 explorations: map<string, LF.Session>, sid: string) {
    || sid !in sessions
    || sessions[sid].explorationId !in explorations
    || explorations[sessions[sid].explorationId].nodes == []
    || DF.TagsOf(explorations[sessions[sid].explorationId].nodes) == {}
  }

  /** A clustered synthesis session after its three theme nodes and its
      finalization with score `q`. */
  function Concluded(s: DF.SynthesisSession, q: real, stamp: string, now: Time): DF.SynthesisSession {
    s.(nodes := s.nodes + Themes(|s.nodes|, SynthesisThemes, stamp, now),
       status := DF.Completed, summary := Some(SynthesisSummary), qualityScore := Some(DF.Clamp(q)),
       completionTime := Some(now), updatedAt := now)
  }

  /** The synthesis `sid` after `complete_phase`: clustered by tag into
      three clusters, three theme nodes longer, and completed with the
      summary and the clamped score. */
  ghost predicate Synthesized(before: map<string, DF.SynthesisSession>, after: map<string, DF.SynthesisSession>,
                              explorations: map<string, LF.Session>, sid: string, q: real, stamp: string, now: Time) {
    && sid in before && sid in after
    && after == before[sid := after[sid]]
    && before[sid].explorationId in explorations
    && var s0, s := before[sid], after[sid];
       && s == s0.(clusters := s.clusters, nodes := s0.nodes + Themes(|s0.nodes|, SynthesisThemes, stamp, now),
                   status := DF.Completed, summary := Some(SynthesisSummary), qualityScore := Some(DF.Clamp(q)),
                   completionTime := Some(now), updatedAt := now)
       && DF.TagClustering(explorations[s0.explorationId].nodes, SynthesisClusters, s.clusters)
  }

  /** Concluding the clustered session gives the state `Synthesized`
      describes. */
  lemma ConcludedSynthesized(before: map<string, DF.SynthesisSession>, explorations: map<string, LF.Session>,
                             sid: string, s1: DF.SynthesisSession, q: real, stamp: string, now: Time)
    requires sid in before && before[sid].explorationId in explorations
    requires s1 == before[sid].(clusters := s1.clusters, updatedAt := now)
    requires DF.TagClustering(explorations[before[sid].explorationId].nodes, SynthesisClusters, s1.clusters)
    ensures Synthesized(before, before[sid := Concluded(s1, q, stamp, now)], explorations, sid, q, stamp, now)
  {
  }

  /** `complete_phase` fails for cycle `c`: it has no phase, its last
      phase is not active, the exploration of a LightFace phase is not
      stored, or the synthesis of a DarkFace phase cannot be clustered. */
  ghost predicate PhaseBlocked(c: Cycle, explorations: map<string, LF.Session>,
                               syntheses: map<string, DF.SynthesisSession>) {
    || c.phases == []
    || Last(c).status != Active
    || (Last(c).LightPhase? && Last(c).explorationId !in explorations)
    || (Last(c).DarkPhase? && ClusterBlocked(syntheses, explorations, Last(c).synthesisId))
  }

  /** What completing the last phase of `c` does to the LightFace and
      DarkFace stores: the exploration of a LightFace phase is completed
      and nothing else changes; for a DarkFace phase the explorations stay
      as they were, the synthesis is `Synthesized` and its memory atom is
      written. */
  ghost predicate PhaseEffects(c: Cycle, ex0: map<string, LF.Session>, ex1: map<string, LF.Session>,
                               sy0: map<string, DF.SynthesisSession>, sy1: map<string, DF.SynthesisSession>,
                               at0: map<string, DF.MemoryAtom>, at1: map<string, DF.MemoryAtom>,
                               draws: Draws, stamp: string, date: string, now: Time) {
    && c.phases != []
    && (Last(c).LightPhase? ==>
          var eid := Last(c).explorationId;
          && eid in ex0
          && ex1 == ex0[eid := ex0[eid].(status := LF.Completed, updatedAt := now)]
          && sy1 == sy0 && at1 == at0)
    && (Last(c).DarkPhase? ==>
          var sid := Last(c).synthesisId;
          && ex1 == ex0
          && Synthesized(sy0, sy1, ex1, sid, draws.quality, stamp, now)
          && at1 == at0[DF.AtomKey(sid) := DF.AtomFor(sy1[sid], date, now)])
  }

  class ToroidalCycle {
    /** The cycle documents, keyed by cycle id. */
    var cycles: map<string, Cycle>
    const config: Config
    /** The base name of the policy file. */
    const configName: string
    const explorer: LF.LightFaceExploration
    const synthesizer: DF.DarkFaceSynthesis

    ghost predicate Valid()
      reads this
    {
      ValidStore(cycles)
    }

    constructor (config: Config, configName: string, store: map<string, Cycle>,
                 explorations: map<string, LF.Session>, syntheses: map<string, DF.SynthesisSession>,
                 atoms: map<string, DF.MemoryAtom>)
      ensures this.config == config && this.configName == configName && cycles == store
      ensures explorer.sessions == explorations
      ensures synthesizer.sessions == syntheses && synthesizer.atoms == atoms
      ensures fresh(explorer) && fresh(synthesizer)
    {
      this.config := config;
      this.configName := configName;
      cycles := store;
      explorer := new LF.LightFaceExploration(explorations);
      synthesizer := new DF.DarkFaceSynthesis(syntheses, atoms);
    }

    /** Opens an active cycle with no phases; a cycle stored under the same
        id is overwritten. */
    method StartCycle(name: Option<string>, stamp: string, now: Time) returns (c: Cycle)
      modifies this
      ensures c == Began("cycle_" + stamp, name.GetOr(config.defaultCycleName.GetOr(DefaultCycleName)),
                         configName, now)
      ensures c.status == Active && c.phases == [] && c.currentPhase == Init
      ensures cycles == old(cycles)[c.id := c]
      ensures old(Valid()) ==> Valid()
    {
      var cycleName := name.GetOr(config.defaultCycleName.GetOr(DefaultCycleName));
      c := Began("cycle_" + stamp, cycleName, configName, now);
      BeganOk(c.id, cycleName, configName, now);
      cycles := cycles[c.id := c];
    }

    /** Starts an exploration on the configured topic and appends an active
        LightFace phase for it, whatever phase is in progress. */
    method ExecuteLightfacePhase(cycleId: string, stamp: string, now: Time) returns (r: Result<Cycle, Error>)
      modifies this, explorer
      ensures Load(old(cycles), cycleId).Failure? ==>
                && r == Failure(Load(old(cycles), cycleId).error)
                && cycles == old(cycles) && explorer.sessions == old(explorer.sessions)
      ensures Load(old(cycles), cycleId).Success? ==>
                var topic := config.lightfaceTopic.GetOr(DefaultTopic);
                var duration := config.lightfaceDuration.GetOr(DefaultDuration);
                var phase := LightPhase("explore_" + stamp, topic, now, Active, now + duration * LF.SecondsPerDay,
                                        None, None);
                && r == Success(WithPhase(old(cycles[cycleId]), phase, InLightface, now))
                && cycles == old(cycles)[cycleId := r.value]
                && phase.explorationId in explorer.sessions
                && explorer.sessions == old(explorer.sessions)[phase.explorationId := explorer.sessions[phase.explorationId]]
                && var e := explorer.sessions[phase.explorationId];
                   e.topic == topic && e.status == LF.Active && e.nodes == [] && e.endTime == phase.endTime
      ensures old(Valid()) ==> Valid()
    {
      var c :- Load(cycles, cycleId);
      var topic := config.lightfaceTopic.GetOr(DefaultTopic);
      var duration := config.lightfaceDuration.GetOr(DefaultDuration);
      var exploration := explorer.StartExploration(topic, duration, [], stamp, now);
      var phase := LightPhase(exploration.id, topic, now, Active, now + duration * LF.SecondsPerDay, None, None);
      var updated := WithPhase(c, phase, InLightface, now);
      if old(Valid()) {
        WithPhaseOk(cycleId, c, phase, InLightface, now);
      }
      cycles := cycles[cycleId := updated];
      r := Success(updated);
    }

    /** Starts a synthesis of the given exploration, or of the last
        LightFace phase's exploration, and appends an active DarkFace
        phase for it. */
    method ExecuteDarkfacePhase(cycleId: string, explorationId: Option<string>, stamp: string, now: Time)
      returns (r: Result<Cycle, Error>)
      modifies this, synthesizer
      ensures Load(old(cycles), cycleId).Failure? ==>
                && r == Failure(Load(old(cycles), cycleId).error)
                && cycles == old(cycles) && synthesizer.sessions == old(synthesizer.sessions)
      ensures Load(old(cycles), cycleId).Success? && explorationId.None? && Lightface(old(cycles[cycleId]).phases) == [] ==>
                && r == Failure(NoLightfacePhase(cycleId))
                && cycles == old(cycles) && synthesizer.sessions == old(synthesizer.sessions)
      ensures Load(old(cycles), cycleId).Success? && (explorationId.Some? || Lightface(old(cycles[cycleId]).phases) != []) ==>
                var c := old(cycles[cycleId]);
                var ls := Lightface(c.phases);
                var eid := if explorationId.Some? then explorationId.value else ls[|ls| - 1].explorationId;
                var title := config.darkfaceTitle.GetOr("Synthesis of " + c.name);
                && (eid !in explorer.sessions ==>
                      && r == Failure(SynthesisFailed(DF.ExplorationNotFound(eid)))
                      && cycles == old(cycles) && synthesizer.sessions == old(synthesizer.sessions))
                && (eid in explorer.sessions ==>
                      && r == Success(WithPhase(c, DarkPhase("synth_" + stamp, eid, title, now, Active, None, None),
                                                InDarkface, now))
                      && cycles == old(cycles)[cycleId := r.value]
                      && synthesizer.sessions == old(synthesizer.sessions)["synth_" + stamp :=
                           DF.SynthesisSession("synth_" + stamp, title, eid, explorer.sessions[eid].topic, now,
                                               DF.Active, [], [], [], now, now, None, None, None)])
      ensures synthesizer.atoms == old(synthesizer.atoms)
      ensures old(Valid()) ==> Valid()
    {
      var c :- Load(cycles, cycleId);
      var eid: string;
      if explorationId.Some? {
        eid := explorationId.value;
      } else {
        var ls := Lightface(c.phases);
        if ls == [] {
          return Failure(NoLightfacePhase(cycleId));
        }
        eid := ls[|ls| - 1].explorationId;
      }
      var title := config.darkfaceTitle.GetOr("Synthesis of " + c.name);
      var synthesis := synthesizer.StartSynthesis(eid, title, None, explorer.sessions, stamp, now);
      if synthesis.Failure? {
        return Failure(SynthesisFailed(synthesis.error));
      }
      var phase := DarkPhase(synthesis.value.id, eid, title, now, Active, None, None);
      var updated := WithPhase(c, phase, InDarkface, now);
      if old(Valid()) {
        WithPhaseOk(cycleId, c, phase, InDarkface, now);
      }
      cycles := cycles[cycleId := updated];
      r := Success(updated);
    }

    /** Completes the last phase of an active cycle: ends its exploration,
        or clusters, extends and finalizes its synthesis, then records the
        drawn results. */
    method CompletePhase(cycleId: string, draws: Draws, stamp: string, date: string, now: Time)
      returns (r: Result<Cycle, Error>)
      requires InRange(draws)
      modifies this, explorer, synthesizer
      ensures r.Failure? ==>
                && cycles == old(cycles) && explorer.sessions == old(explorer.sessions)
                && synthesizer.sessions == old(synthesizer.sessions) && synthesizer.atoms == old(synthesizer.atoms)
      ensures Load(old(cycles), cycleId).Failure? ==> r == Failure(Load(old(cycles), cycleId).error)
      ensures Load(old(cycles), cycleId).Success? && old(cycles[cycleId]).phases == [] ==>
                r == Failure(NoActivePhase(cycleId))
      ensures Load(old(cycles), cycleId).Success? && old(cycles[cycleId]).phases != [] ==>
                var last := Last(old(cycles[cycleId]));
                && (last.status != Active ==> r == Failure(PhaseNotActive(Kind(last))))
                && (last.status == Active && last.LightPhase? ==>
                      (r.Failure? <==> last.explorationId !in old(explorer.sessions))
                      && (r.Failure? ==> r.error == ExplorationFailed(LF.SessionNotFound(last.explorationId))))
                && (last.status == Active && last.DarkPhase? ==>
                      (r.Failure? <==> ClusterBlocked(old(synthesizer.sessions), explorer.sessions, last.synthesisId))
                      && (r.Failure? ==> r.error.SynthesisFailed?))
      ensures r.Success? ==>
                && cycleId in old(cycles) && old(cycles[cycleId]).phases != []
                && var c := old(cycles[cycleId]);
                   && r.value == WithLastClosed(c, Closed(Last(c), draws, now), now)
                   && cycles == old(cycles)[cycleId := r.value]
      ensures r.Success? ==>
                PhaseEffects(old(cycles[cycleId]), old(explorer.sessions), explorer.sessions,
                             old(synthesizer.sessions), synthesizer.sessions, old(synthesizer.atoms), synthesizer.atoms,
                             draws, stamp, date, now)
      ensures Load(old(cycles), cycleId).Success? ==>
                (r.Failure? <==> PhaseBlocked(old(cycles[cycleId]), old(explorer.sessions), old(synthesizer.sessions)))
      ensures old(Valid()) ==> Valid()
    {
      var c :- Load(cycles, cycleId);
      if c.phases == [] {
        return Failure(NoActivePhase(cycleId));
      }
      var last := Last(c);
      if last.status != Active {
        return Failure(PhaseNotActive(Kind(last)));
      }
      ghost var wasValid := Valid();
      if last.LightPhase? {
        var ended := explorer.EndExploration(last.explorationId, now);
        assert cycles == old(cycles) && synthesizer.sessions == old(synthesizer.sessions);
        if ended.Failure? {
          return Failure(ExplorationFailed(ended.error));
        }
      } else {
        var failed := CompleteSynthesis(last.synthesisId, draws.quality, stamp, date, now);
        assert cycles == old(cycles) && explorer.sessions == old(explorer.sessions);
        if failed.Some? {
          return Failure(SynthesisFailed(failed.value));
        }
      }
      var updated := WithLastClosed(c, Closed(last, draws, now), now);
      if wasValid {
        WithLastClosedOk(cycleId, c, draws, now);
      }
      cycles := cycles[cycleId := updated];
      r := Success(updated);
    }

    /** Completes an active cycle: first the phase in progress, if the
        cycle is in one, then the cycle itself, with the given summary or
        one generated from the cycle as it then stands. */
    method CompleteCycle(cycleId: string, summary: Option<string>, draws: Draws, stamp: string, date: string,
                         now: Time) returns (r: Result<Cycle, Error>)
      requires InRange(draws)
      modifies this, explorer, synthesizer
      ensures r.Failure? ==>
                && cycles == old(cycles) && explorer.sessions == old(explorer.sessions)
                && synthesizer.sessions == old(synthesizer.sessions) && synthesizer.atoms == old(synthesizer.atoms)
      ensures Load(old(cycles), cycleId).Failure? ==> r == Failure(Load(old(cycles), cycleId).error)
      ensures Load(old(cycles), cycleId).Success?
              && (old(cycles[cycleId]).currentPhase == Init || old(cycles[cycleId]).currentPhase == Complete) ==>
                && r == Success(Finished(old(cycles[cycleId]), summary, now))
                && explorer.sessions == old(explorer.sessions)
                && synthesizer.sessions == old(synthesizer.sessions) && synthesizer.atoms == old(synthesizer.atoms)
      ensures Load(old(cycles), cycleId).Success?
              && (old(cycles[cycleId]).currentPhase == InLightface || old(cycles[cycleId]).currentPhase == InDarkface)
              && r.Success? ==>
                var c := old(cycles[cycleId]);
                c.phases != [] && r.value == Finished(WithLastClosed(c, Closed(Last(c), draws, now), now), summary, now)
      ensures Load(old(cycles), cycleId).Success?
              && (old(cycles[cycleId]).currentPhase == InLightface || old(cycles[cycleId]).currentPhase == InDarkface) ==>
                (r.Failure? <==> PhaseBlocked(old(cycles[cycleId]), old(explorer.sessions), old(synthesizer.sessions)))
      ensures Load(old(cycles), cycleId).Success?
              && (old(cycles[cycleId]).currentPhase == InLightface || old(cycles[cycleId]).currentPhase == InDarkface)
              && r.Success? ==>
                PhaseEffects(old(cycles[cycleId]), old(explorer.sessions), explorer.sessions,
                             old(synthesizer.sessions), synthesizer.sessions, old(synthesizer.atoms), synthesizer.atoms,
                             draws, stamp, date, now)
      ensures r.Success? ==>
                && cycles == old(cycles)[cycleId := r.value]
                && r.value.status == Completed && r.value.completionTime == Some(now)
                && (summary.Some? ==> r.value.summary == Some(Written(summary.value)))
      ensures old(Valid()) ==> Valid()
    {
      var c :- Load(cycles, cycleId);
      if c.currentPhase != Init && c.currentPhase != Complete {
        var done := CompletePhase(cycleId, draws, stamp, date, now);
        if done.Failure? {
          return Failure(done.error);
        }
        UpdateTwice(old(cycles), cycleId, done.value, Finished(done.value, summary, now));
      }
      var finished := FinishCycle(cycleId, summary, now);
      r := Success(finished);
    }

    /** The second half of `complete_cycle`: the summary, the status and
        the completion time. */
    method FinishCycle(cycleId: string, summary: Option<string>, now: Time) returns (r: Cycle)
      requires cycleId in cycles
      modifies this
      ensures r == Finished(old(cycles[cycleId]), summary, now)
      ensures cycles == old(cycles)[cycleId := r]
      ensures ValidStore(old(cycles)) && old(cycles[cycleId]).status == Active
              && (old(cycles[cycleId]).currentPhase == Init || old(cycles[cycleId]).currentPhase == Complete) ==>
                ValidStore(cycles)
    {
      var c := cycles[cycleId];
      var text: Summary;
      if summary.Some? {
        text := Written(summary.value);
      } else {
        var stats := SummaryStats(c);
        text := Generated(stats);
      }
      r := c.(status := Completed, summary := Some(text), completionTime := Some(now), updatedAt := now);
      if ValidStore(cycles) && c.status == Active && (c.currentPhase == Init || c.currentPhase == Complete) {
        FinishedOk(cycleId, c, summary, now);
      }
      cycles := cycles[cycleId := r];
    }

    /** The cycles with the requested status, newest first; the store is
        read in the order the directory listing gives. */
    method ListCycles(status: Option<Status>) returns (result: seq<Cycle>, ghost visited: seq<string>)
      ensures forall k :: k in visited <==> k in cycles
      ensures result == Sorting.SortBy(Store.Collected(visited, cycles, Listed(status)), NewerFirst)
    {
      var files := Store.ListDir(cycles);
      var found: seq<Cycle> := [];
      for i := 0 to |files|
        invariant found == Store.Collected(files[..i], cycles, Listed(status))
      {
        var file := files[i];
        Store.CollectedSnoc(files[..i], file, cycles, Listed(status));
        assert files[..i + 1] == files[..i] + [file];
        if "cycle_" <= file {
          var cycle := cycles[file];
          if status.None? || cycle.status == status.value {
            found := found + [cycle];
          }
        }
      }
      assert files[..|files|] == files;
      visited := files;
      result := Sorting.SortBy(found, NewerFirst);
    }

    /** The DarkFace half of `complete_phase`: cluster the exploration's
        nodes by tag into three clusters, add three theme nodes and
        finalize with score `q`. Only the clustering can fail. */
    method CompleteSynthesis(sid: string, q: real, stamp: string, date: string, now: Time)
      returns (failed: Option<DF.Error>)
      modifies synthesizer
      ensures failed.Some? <==> ClusterBlocked(old(synthesizer.sessions), explorer.sessions, sid)
      ensures failed.Some? ==>
                synthesizer.sessions == old(synthesizer.sessions) && synthesizer.atoms == old(synthesizer.atoms)
      ensures failed.None? ==>
                && Synthesized(old(synthesizer.sessions), synthesizer.sessions, explorer.sessions, sid, q, stamp, now)
                && synthesizer.atoms == if q >= DF.AtomThreshold
                                        then old(synthesizer.atoms)[DF.AtomKey(sid) := DF.AtomFor(synthesizer.sessions[sid], date, now)]
                                        else old(synthesizer.atoms)
      ensures old(synthesizer.Valid()) ==> synthesizer.Valid()
    {
      ghost var before := synthesizer.sessions;
      var clustered := ClusterByTag(sid, now);
      if clustered.Failure? {
        return Some(clustered.error);
      }
      ConcludedSynthesized(before, explorer.sessions, sid, clustered.value, q, stamp, now);
      ThemeAndFinalize(sid, q, stamp, date, now);
      failed := None;
    }

    /** `cluster_nodes(session_id, "tag_similarity", 3)`. */
    method ClusterByTag(sid: string, now: Time) returns (r: Result<DF.SynthesisSession, DF.Error>)
      modifies synthesizer
      ensures r.Failure? <==> ClusterBlocked(old(synthesizer.sessions), explorer.sessions, sid)
      ensures r.Failure? ==> synthesizer.sessions == old(synthesizer.sessions)
      ensures r.Success? ==>
                && sid in old(synthesizer.sessions)
                && old(synthesizer.sessions[sid]).explorationId in explorer.sessions
                && r.value == old(synthesizer.sessions[sid]).(clusters := r.value.clusters, updatedAt := now)
                && DF.TagClustering(explorer.sessions[old(synthesizer.sessions[sid]).explorationId].nodes,
                                    SynthesisClusters, r.value.clusters)
                && synthesizer.sessions == old(synthesizer.sessions)[sid := r.value]
      ensures synthesizer.atoms == old(synthesizer.atoms)
      ensures old(synthesizer.Valid()) ==> synthesizer.Valid()
    {
      DF.MethodsDiffer();
      r := synthesizer.ClusterNodes(sid, DF.TagSimilarity, SynthesisClusters, explorer.sessions, now);
    }

    /** The rest of the DarkFace half of `complete_phase`, once the
        session is clustered: three theme nodes, then finalization. */
    method ThemeAndFinalize(sid: string, q: real, stamp: string, date: string, now: Time)
      requires sid in synthesizer.sessions
      modifies synthesizer
      ensures synthesizer.sessions == old(synthesizer.sessions)[sid := Concluded(old(synthesizer.sessions[sid]), q, stamp, now)]
      ensures synthesizer.atoms == if q >= DF.AtomThreshold
                                   then old(synthesizer.atoms)[DF.AtomKey(sid) := DF.AtomFor(synthesizer.sessions[sid], date, now)]
                                   else old(synthesizer.atoms)
      ensures old(synthesizer.Valid()) ==> synthesizer.Valid()
    {
      AddThemes(sid, stamp, now);
      var _ := synthesizer.FinalizeSynthesis(sid, SynthesisSummary, q, date, now);
    }

    /** `add_synthesis_node` three times, for "Synthesis theme 1" to "3". */
    method AddThemes(sid: string, stamp: string, now: Time)
      requires sid in synthesizer.sessions
      modifies synthesizer
      ensures var s := old(synthesizer.sessions[sid]);
              synthesizer.sessions == old(synthesizer.sessions)[sid :=
                s.(nodes := s.nodes + Themes(|s.nodes|, SynthesisThemes, stamp, now), updatedAt := now)]
      ensures synthesizer.atoms == old(synthesizer.atoms)
      ensures old(synthesizer.Valid()) ==> synthesizer.Valid()
    {
      ghost var s := synthesizer.sessions[sid];
      ghost var before := synthesizer.sessions;
      for i := 0 to SynthesisThemes
        invariant synthesizer.sessions == before[sid := WithThemes(s, i, stamp, now)]
        invariant synthesizer.atoms == old(synthesizer.atoms)
        invariant old(synthesizer.Valid()) ==> synthesizer.Valid()
      {
        WithThemesStep(s, i, stamp, now);
        var _ := synthesizer.AddSynthesisNode(sid, "Synthesis theme " + Decimal(i + 1), ThemeContent,
                                              None, None, stamp, now);
      }
    }
  }
}
