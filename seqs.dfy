/** Facts about sequences shared by the modules: distinct elements and
    the concatenation of a list of lists. */
module Seqs {

  ghost predicate Distinct<T>(s: seq<T>) {
    forall i, j :: 0 <= i < j < |s| ==> s[i] != s[j]
  }

  function Flatten<T>(ss: seq<seq<T>>): seq<T> {
    if ss == [] then [] else Flatten(ss[..|ss| - 1]) + ss[|ss| - 1]
  }

  /** Appending `x` to one of the lists adds exactly one `x` to the whole. */
  lemma {:induction false} FlattenAppend<T>(ss: seq<seq<T>>, c: nat, x: T)
    requires c < |ss|
    ensures multiset(Flatten(ss[c := ss[c] + [x]])) == multiset(Flatten(ss)) + multiset{x}
  {
    var n := |ss| - 1;
    if c < n {
      var tt := ss[c := ss[c] + [x]];
      assert tt[..n] == ss[..n][c := ss[c] + [x]] && tt[n] == ss[n];
      FlattenAppend(ss[..n], c, x);
      FlattenLast(tt);
      FlattenLast(ss);
    } else {
      FlattenAppendLast(ss, x);
    }
  }

  /** The multiset of a flattening, split at the last list. */
  lemma FlattenLast<T>(ss: seq<seq<T>>)
    requires ss != []
    ensures multiset(Flatten(ss)) == multiset(Flatten(ss[..|ss| - 1])) + multiset(ss[|ss| - 1])
  {
  }

  lemma FlattenAppendLast<T>(ss: seq<seq<T>>, x: T)
    requires ss != []
    ensures var n := |ss| - 1;
      multiset(Flatten(ss[n := ss[n] + [x]])) == multiset(Flatten(ss)) + multiset{x}
  {
    var n := |ss| - 1;
    var tt := ss[n := ss[n] + [x]];
    assert tt[..n] == ss[..n];
    FlattenLast(tt);
    FlattenLast(ss);
  }

  /** Lists of empty lists flatten to nothing. */
  lemma {:induction false} FlattenEmpty<T>(ss: seq<seq<T>>)
    requires forall i :: 0 <= i < |ss| ==> ss[i] == []
    ensures Flatten(ss) == []
  {
    if ss != [] {
      FlattenEmpty(ss[..|ss| - 1]);
    }
  }

  /** The elements of `xs` that satisfy `p`, in their original order. */
  function Filter<T>(xs: seq<T>, p: T -> bool): (r: seq<T>)
    ensures |r| <= |xs|
    ensures forall i :: 0 <= i < |r| ==> r[i] in xs && p(r[i])
    ensures forall i :: 0 <= i < |xs| && p(xs[i]) ==> xs[i] in r
  {
    if xs == [] then []
    else
      var n := |xs| - 1;
      assert xs == xs[..n] + [xs[n]];
      Filter(xs[..n], p) + (if p(xs[n]) then [xs[n]] else [])
  }

  /** The image of every element of `xs` under `f`. */
  function Map<T, U>(xs: seq<T>, f: T -> U): (r: seq<U>)
    ensures |r| == |xs|
    ensures forall i :: 0 <= i < |xs| ==> r[i] == f(xs[i])
  {
    if xs == [] then [] else Map(xs[..|xs| - 1], f) + [f(xs[|xs| - 1])]
  }

  /** `r` is `xs` with some elements left out and the rest kept in order. */
  ghost predicate SubsequenceOf<T>(r: seq<T>, xs: seq<T>) {
    exists idx: seq<nat> :: Picks(idx, r, xs)
  }

  /** `idx` lists increasing positions of `xs` that spell out `r`. */
  ghost predicate Picks<T>(idx: seq<nat>, r: seq<T>, xs: seq<T>) {
    && |idx| == |r|
    && (forall k :: 0 <= k < |idx| ==> idx[k] < |xs| && xs[idx[k]] == r[k])
    && (forall k :: 0 < k < |idx| ==> idx[k - 1] < idx[k])
  }

  lemma {:induction false} FilterPicks<T>(xs: seq<T>, p: T -> bool) returns (idx: seq<nat>)
    ensures Picks(idx, Filter(xs, p), xs)
  {
    if xs == [] {
      idx := [];
    } else {
      var n := |xs| - 1;
      var front := FilterPicks(xs[..n], p);
      var r := Filter(xs, p);
      var rest := Filter(xs[..n], p);
      assert r == rest + (if p(xs[n]) then [xs[n]] else []);
      idx := front + (if p(xs[n]) then [n] else []);
      forall k | 0 <= k < |idx|
        ensures idx[k] < |xs| && xs[idx[k]] == r[k]
      {
        if k < |front| {
          assert xs[..n][front[k]] == xs[front[k]];
        }
      }
      forall k | 0 < k < |idx|
        ensures idx[k - 1] < idx[k]
      {
        if k == |front| {
          assert front[k - 1] < n;
        }
      }
    }
  }

  lemma FilterSubsequence<T>(xs: seq<T>, p: T -> bool)
    ensures SubsequenceOf(Filter(xs, p), xs)
  {
    var idx := FilterPicks(xs, p);
  }

  lemma MapSubsequence<T, U>(r: seq<T>, xs: seq<T>, f: T -> U)
    requires SubsequenceOf(r, xs)
    ensures SubsequenceOf(Map(r, f), Map(xs, f))
  {
    var idx :| Picks(idx, r, xs);
    assert Picks(idx, Map(r, f), Map(xs, f));
  }

  /** A prefix keeps the order of what it is a prefix of. */
  lemma PrefixSubsequence<T>(r: seq<T>, s: seq<T>, xs: seq<T>)
    requires SubsequenceOf(s, xs) && r <= s
    ensures SubsequenceOf(r, xs)
  {
    var idx :| Picks(idx, s, xs);
    assert Picks(idx[..|r|], r, xs);
  }

  /** One more element of `xs` considered by the filter. */
  lemma FilterStep<T>(xs: seq<T>, i: nat, p: T -> bool)
    requires i < |xs|
    ensures Filter(xs[..i + 1], p) == Filter(xs[..i], p) + (if p(xs[i]) then [xs[i]] else [])
  {
    assert xs[..i + 1][..i] == xs[..i];
  }

  lemma MapSnoc<T, U>(xs: seq<T>, y: T, f: T -> U)
    ensures Map(xs + [y], f) == Map(xs, f) + [f(y)]
  {
    assert (xs + [y])[..|xs|] == xs;
  }

  /** When `f` tells the elements of `xs` apart, the image of an element
      is among the images of the filtered elements exactly when the
      element passes the filter. */
  lemma FilterMapMember<T, U>(xs: seq<T>, p: T -> bool, f: T -> U, k: nat)
    requires k < |xs|
    requires forall i, j :: 0 <= i < j < |xs| ==> f(xs[i]) != f(xs[j])
    ensures f(xs[k]) in Map(Filter(xs, p), f) <==> p(xs[k])
  {
    var picked := Filter(xs, p);
    var images := Map(picked, f);
    if f(xs[k]) in images {
      var j :| 0 <= j < |images| && images[j] == f(xs[k]);
      var m :| 0 <= m < |xs| && xs[m] == picked[j];
      assert f(xs[m]) == f(xs[k]);
      assert m == k;
    }
    if p(xs[k]) {
      var j :| 0 <= j < |picked| && picked[j] == xs[k];
      assert images[j] == f(xs[k]);
    }
  }

  /** What a filter keeps: nothing exactly when no element passes, the
      passing elements in their order, and an element of `xs` exactly
      when it passes. */
  lemma FilterFacts<T>(xs: seq<T>, p: T -> bool)
    ensures Filter(xs, p) == [] <==> forall k :: 0 <= k < |xs| ==> !p(xs[k])
    ensures SubsequenceOf(Filter(xs, p), xs)
    ensures forall k :: 0 <= k < |xs| ==> (xs[k] in Filter(xs, p) <==> p(xs[k]))
  {
    FilterSubsequence(xs, p);
    var r := Filter(xs, p);
    if r != [] {
      assert r[0] in xs && p(r[0]);
    }
    forall k | 0 <= k < |xs| && xs[k] in r
      ensures p(xs[k])
    {
      var j :| 0 <= j < |r| && r[j] == xs[k];
    }
  }

  /** A filter keeps the elements of a list that has no repetitions once each. */
  lemma {:induction false} FilterDistinct<T>(xs: seq<T>, p: T -> bool)
    requires Distinct(xs)
    ensures Distinct(Filter(xs, p))
  {
    if xs != [] {
      var n := |xs| - 1;
      var init := Filter(xs[..n], p);
      FilterDistinct(xs[..n], p);
      assert xs[n] !in xs[..n];
      assert xs[n] !in init;
    }
  }

  /** Two filters that never keep the same element keep at most the
      whole list between them. */
  lemma {:induction false} FilterExclusive<T>(xs: seq<T>, p: T -> bool, q: T -> bool)
    requires forall i :: 0 <= i < |xs| ==> !(p(xs[i]) && q(xs[i]))
    ensures |Filter(xs, p)| + |Filter(xs, q)| <= |xs|
  {
    if xs != [] {
      var n := |xs| - 1;
      var init := xs[..n];
      assert forall i :: 0 <= i < n ==> init[i] == xs[i];
      FilterExclusive(init, p, q);
      assert |Filter(xs, p)| == |Filter(init, p)| + if p(xs[n]) then 1 else 0;
      assert |Filter(xs, q)| == |Filter(init, q)| + if q(xs[n]) then 1 else 0;
    }
  }
}
