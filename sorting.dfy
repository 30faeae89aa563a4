/** Python's `list.sort(key=..., reverse=True)`: a stable sort into
    non-increasing key order. The order is given as a relation `ge`
    ("may stand before"), which every caller derives from its sort key. */
module Sorting {

  ghost predicate Total<T(!new)>(ge: (T, T) -> bool) {
    forall x, y :: ge(x, y) || ge(y, x)
  }

  ghost predicate Transitive<T(!new)>(ge: (T, T) -> bool) {
    forall x, y, z :: ge(x, y) && ge(y, z) ==> ge(x, z)
  }

  /** Every element may stand before every later one. */
  ghost predicate SortedBy<T>(s: seq<T>, ge: (T, T) -> bool) {
    forall i, j :: 0 <= i < j < |s| ==> ge(s[i], s[j])
  }

  /** Places `x` after every element that may stand before it, so that
      elements with equal keys keep their original order. */
  function Insert<T>(s: seq<T>, x: T, ge: (T, T) -> bool): (r: seq<T>)
    ensures multiset(r) == multiset(s) + multiset{x}
    ensures |r| == |s| + 1
  {
    if s == [] then [x]
    else if ge(s[0], x) then
      assert s == [s[0]] + s[1..];
      [s[0]] + Insert(s[1..], x, ge)
    else [x] + s
  }

  /** Inserts the elements one by one, in their original order. */
  function SortBy<T>(s: seq<T>, ge: (T, T) -> bool): (r: seq<T>)
    ensures multiset(r) == multiset(s)
    ensures |r| == |s|
  {
    if s == [] then []
    else
      assert s == s[..|s| - 1] + [s[|s| - 1]];
      Insert(SortBy(s[..|s| - 1], ge), s[|s| - 1], ge)
  }

  lemma {:induction false} InsertSorted<T(!new)>(s: seq<T>, x: T, ge: (T, T) -> bool)
    requires Total(ge) && Transitive(ge)
    requires SortedBy(s, ge)
    ensures SortedBy(Insert(s, x, ge), ge)
  {
    if s == [] {
    } else if ge(s[0], x) {
      InsertSorted(s[1..], x, ge);
      var r := Insert(s, x, ge);
      var t := Insert(s[1..], x, ge);
      assert r == [s[0]] + t;
      forall j | 0 < j < |r| ensures ge(s[0], r[j]) {
        assert r[j] in multiset(t);
        assert r[j] in multiset(s[1..]) + multiset{x};
        if r[j] != x {
          assert r[j] in s[1..];
          var k :| 0 <= k < |s[1..]| && s[1..][k] == r[j];
          assert s[k + 1] == r[j];
        }
      }
    } else {
      assert ge(x, s[0]);
      forall j | 0 <= j < |s| ensures ge(x, s[j]) {
        if j > 0 { assert ge(s[0], s[j]); }
      }
    }
  }

  lemma {:induction false} SortBySorted<T(!new)>(s: seq<T>, ge: (T, T) -> bool)
    requires Total(ge) && Transitive(ge)
    ensures SortedBy(SortBy(s, ge), ge)
  {
    if s != [] {
      SortBySorted(s[..|s| - 1], ge);
      InsertSorted(SortBy(s[..|s| - 1], ge), s[|s| - 1], ge);
    }
  }

  /** Python slicing `s[:k]`, including a negative `k`, which counts from the end. */
  function Take<T>(s: seq<T>, k: int): (r: seq<T>)
    ensures k >= 0 ==> |r| == if k < |s| then k else |s|
    ensures k < 0 ==> |r| == if |s| + k > 0 then |s| + k else 0
    ensures r <= s
  {
    if k >= 0 then (if k < |s| then s[..k] else s)
    else if |s| + k > 0 then s[..|s| + k] else []
  }

  lemma TakeSorted<T>(s: seq<T>, k: int, ge: (T, T) -> bool)
    requires SortedBy(s, ge)
    ensures SortedBy(Take(s, k), ge)
  {
  }

  /** A prefix of a sorted sequence may stand before everything left out of it. */
  lemma PrefixBest<T>(s: seq<T>, n: nat, ge: (T, T) -> bool)
    requires SortedBy(s, ge) && n <= |s|
    ensures forall x, y :: x in s[..n] && y in multiset(s) - multiset(s[..n]) ==> ge(x, y)
  {
    var p, q := s[..n], s[n..];
    assert s == p + q;
    assert multiset(s) == multiset(p) + multiset(q);
    forall x, y | x in p && y in multiset(s) - multiset(p) ensures ge(x, y) {
      var i :| 0 <= i < n && p[i] == x;
      assert multiset(q)[y] > 0;
      assert y in q;
      var j :| 0 <= j < |q| && q[j] == y;
      assert s[i] == x && s[n + j] == y;
    }
  }

  /** The `k` best of `s` by `ge`: in order, drawn from `s`, exactly
      `min(k, |s|)` of them for a non-negative `k`, all of `s` once `k`
      reaches its length, and each may stand before every element of `s`
      that was cut off. */
  lemma TopK<T(!new)>(s: seq<T>, k: int, ge: (T, T) -> bool)
    requires Total(ge) && Transitive(ge)
    ensures SortedBy(Take(SortBy(s, ge), k), ge)
    ensures forall x :: x in Take(SortBy(s, ge), k) ==> x in s
    ensures k >= 0 ==> |Take(SortBy(s, ge), k)| == if k < |s| then k else |s|
    ensures k >= |s| ==> Take(SortBy(s, ge), k) == SortBy(s, ge)
    ensures var t := Take(SortBy(s, ge), k);
      forall x, y :: x in t && y in multiset(s) - multiset(t) ==> ge(x, y)
  {
    var sorted := SortBy(s, ge);
    SortBySorted(s, ge);
    TakeSorted(sorted, k, ge);
    forall x | x in Take(sorted, k) ensures x in s {
      assert x in multiset(sorted);
    }
    var t := Take(sorted, k);
    assert t == sorted[..|t|];
    PrefixBest(sorted, |t|, ge);
  }

  /** Python's ordering of strings: lexicographic by character code. */
  predicate LexLe(a: string, b: string) {
    if a == [] then true
    else if b == [] then false
    else if a[0] != b[0] then a[0] < b[0]
    else LexLe(a[1..], b[1..])
  }

  lemma {:induction false} LexLeTotal(a: string, b: string)
    ensures LexLe(a, b) || LexLe(b, a)
  {
    if a != [] && b != [] && a[0] == b[0] {
      LexLeTotal(a[1..], b[1..]);
    }
  }

  lemma {:induction false} LexLeTransitive(a: string, b: string, c: string)
    requires LexLe(a, b) && LexLe(b, c)
    ensures LexLe(a, c)
  {
    if a != [] && b != [] && c != [] && a[0] == b[0] && b[0] == c[0] {
      LexLeTransitive(a[1..], b[1..], c[1..]);
    }
  }
}
