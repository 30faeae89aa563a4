/** The choices the program leaves to Python's `random` module and to
    set iteration order. Each is an arbitrary choice within its bounds,
    so whatever is proved about a caller holds for every outcome. */
module Choice {
  import opened Seqs

  /** `list(s)`: the elements of a set once each, in some order. */
  method Elements<T(==)>(s: set<T>) returns (xs: seq<T>)
    ensures forall x :: x in xs <==> x in s
    ensures Distinct(xs)
    ensures |xs| == |s|
  {
    xs := [];
    var remaining := s;
    while remaining != {}
      invariant remaining <= s
      invariant forall x :: x in xs <==> x in s - remaining
      invariant Distinct(xs)
      invariant |xs| + |remaining| == |s|
      decreases remaining
    {
      var x :| x in remaining;
      xs := xs + [x];
      remaining := remaining - {x};
    }
  }

  /** `random.choice` over a list of length `n`: a position in it. */
  method Pick(n: nat) returns (i: nat)
    requires n > 0
    ensures i < n
  {
    i :| 0 <= i < n;
  }

  /** `random.sample(xs, k)`: `k` elements drawn without replacement. */
  method SampleOf<T>(xs: seq<T>, k: nat) returns (ys: seq<T>)
    requires k <= |xs|
    ensures |ys| == k
    ensures multiset(ys) <= multiset(xs)
  {
    ys := [];
    var pool := xs;
    while |ys| < k
      invariant |ys| <= k
      invariant multiset(ys) + multiset(pool) == multiset(xs)
      invariant |pool| == |xs| - |ys|
    {
      var j := Pick(|pool|);
      assert pool == pool[..j] + [pool[j]] + pool[j + 1..];
      ys := ys + [pool[j]];
      pool := pool[..j] + pool[j + 1..];
    }
  }

  /** A list whose elements occur at most once keeps that in any sub-multiset. */
  lemma SubDistinct<T>(ys: seq<T>, xs: seq<T>)
    requires Distinct(xs)
    requires multiset(ys) <= multiset(xs)
    ensures Distinct(ys)
  {
    forall i, j | 0 <= i < j < |ys| ensures ys[i] != ys[j] {
      if ys[i] == ys[j] {
        var x := ys[i];
        assert ys == ys[..i] + [x] + ys[i + 1..j] + [x] + ys[j + 1..];
        assert multiset(ys)[x] >= 2;
        AtMostOnce(xs, x);
        assert false;
      }
    }
  }

  lemma {:induction false} AtMostOnce<T>(xs: seq<T>, x: T)
    requires Distinct(xs)
    ensures multiset(xs)[x] <= 1
  {
    if xs != [] {
      var init := xs[..|xs| - 1];
      assert xs == init + [xs[|xs| - 1]];
      AtMostOnce(init, x);
      if xs[|xs| - 1] == x {
        assert x !in init;
      }
    }
  }
}
