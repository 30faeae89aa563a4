/** Identifiers of the form `<prefix>_<n>`, which the governance modules
    build with Python f-strings such as `f"node_{stamp}_{len(nodes)}"` and
    `f"cluster_{i+1}"`. */
module Ids {

  predicate IsDigit(c: char) {
    '0' <= c <= '9'
  }

  /** `str(n)` for a natural number. */
  function Decimal(n: nat): (r: string)
    ensures |r| >= 1
    ensures forall k :: 0 <= k < |r| ==> IsDigit(r[k])
    ensures (n < 10) == (|r| == 1)
  {
    if n < 10 then [('0' as int + n) as char]
    else Decimal(n / 10) + [('0' as int + n % 10) as char]
  }

  lemma {:induction false} DecimalInjective(n: nat, m: nat)
    ensures Decimal(n) == Decimal(m) ==> n == m
  {
    if n >= 10 && m >= 10 {
      var dn, dm := Decimal(n), Decimal(m);
      assert dn[..|dn| - 1] == Decimal(n / 10);
      assert dm[..|dm| - 1] == Decimal(m / 10);
      DecimalInjective(n / 10, m / 10);
      if dn == dm {
        assert dn[|dn| - 1] == dm[|dm| - 1];
      }
    }
  }

  /** `f"{prefix}_{n}"`. */
  function Indexed(prefix: string, n: nat): string {
    prefix + "_" + Decimal(n)
  }

  /** The number after the last underscore decides the identifier: two
      identifiers with different numbers differ whatever their prefixes. */
  lemma IndexedDistinct(p: string, q: string, n: nat, m: nat)
    requires n != m
    ensures Indexed(p, n) != Indexed(q, m)
  {
    var a, b := Indexed(p, n), Indexed(q, m);
    var dn, dm := Decimal(n), Decimal(m);
    DecimalInjective(n, m);
    if |a| == |b| {
      if |dn| == |dm| {
        assert a[|a| - |dn|..] == dn;
        assert b[|b| - |dm|..] == dm;
      } else if |dn| < |dm| {
        assert a[|a| - |dn| - 1] == '_';
        assert b[|b| - |dn| - 1] == dm[|dm| - |dn| - 1];
      } else {
        assert b[|b| - |dm| - 1] == '_';
        assert a[|a| - |dm| - 1] == dn[|dn| - |dm| - 1];
      }
    }
  }

  /** `id` was built as `f"{prefix}_{n}"` for some prefix. */
  ghost predicate IndexedBy(id: string, n: nat) {
    exists p :: id == Indexed(p, n)
  }

  lemma IndexedByDistinct(a: string, b: string, n: nat, m: nat)
    requires IndexedBy(a, n) && IndexedBy(b, m) && n != m
    ensures a != b
  {
    var p :| a == Indexed(p, n);
    var q :| b == Indexed(q, m);
    IndexedDistinct(p, q, n, m);
  }
}
