/** What several parts share. */
module Common {

  datatype Option<T> = None | Some(value: T)

  /** No descriptor, no slot, no node. */
  const NONE := -1

  ghost predicate Distinct(q: seq<int>) {
    forall i, j :: 0 <= i < j < |q| ==> q[i] != q[j]
  }

  /** A queue after an entry has been taken out. */
  function Without(q: seq<int>, x: int): seq<int> {
    if q == [] then []
    else if q[|q| - 1] == x then q[..|q| - 1]
    else Without(q[..|q| - 1], x) + [q[|q| - 1]]
  }

  lemma {:induction false} WithoutIs(q: seq<int>, x: int)
    requires Distinct(q)
    ensures Distinct(Without(q, x))
    ensures forall y :: y in Without(q, x) <==> y in q && y != x
    ensures x !in q ==> Without(q, x) == q
    ensures |Without(q, x)| == |q| - (if x in q then 1 else 0)
    decreases |q|
  {
    hide Distinct;
    if q != [] {
      var p, e := q[..|q| - 1], q[|q| - 1];
      assert q == p + [e];
      Pushed(p, e);
      if e != x {
        WithoutIs(p, x);
        Pushed(Without(p, x), e);
      }
    }
  }

  lemma Pushed(p: seq<int>, e: int)
    ensures forall y :: y in p + [e] <==> y in p || y == e
    ensures Distinct(p + [e]) <==> Distinct(p) && e !in p
  {
    var q := p + [e];
    forall i | 0 <= i < |p| ensures q[i] == p[i] {}
    if Distinct(q) {
      forall i | 0 <= i < |p| ensures p[i] != e { assert q[i] != q[|p|]; }
    }
  }

  lemma {:induction false} WithoutSub(q: seq<int>, x: int)
    ensures forall k :: 0 <= k < |Without(q, x)| ==> Without(q, x)[k] in q
    decreases |q|
  {
    if q != [] && q[|q| - 1] != x {
      WithoutSub(q[..|q| - 1], x);
    }
  }

  // ----- remainders

  lemma ModSub(x: nat, d: nat)
    requires 0 < d <= x
    ensures (x - d) % d == x % d
  {
    var p, q := x / d, (x - d) / d;
    assert (q + 1) * d == q * d + d;
    SameRemainder(p, x % d, q + 1, (x - d) % d, d);
  }

  lemma {:induction false} SameRemainder(p: nat, r: nat, q: nat, s: nat, d: nat)
    requires r < d && s < d && p * d + r == q * d + s
    ensures r == s
  {
    if p > 0 && q > 0 {
      assert (p - 1) * d + r == (q - 1) * d + s;
      SameRemainder(p - 1, r, q - 1, s, d);
    } else if p > 0 {
      assert p * d == (p - 1) * d + d;
    } else if q > 0 {
      assert q * d == (q - 1) * d + d;
    }
  }

  lemma {:induction false} ModTimes(q: nat, d: nat)
    requires d > 0
    ensures q * d % d == 0
  {
    if q > 0 {
      assert q * d == (q - 1) * d + d;
      ModTimes(q - 1, d);
      ModSub(q * d, d);
    }
  }
}
