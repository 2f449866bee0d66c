/** Division rounded up, and the little multiplication it takes to reason about it. */
module Division {

  function CeilDiv(x: nat, d: nat): nat
    requires d > 0
  {
    (x + d - 1) / d
  }

  lemma MulMonotone(a: nat, b: nat, c: nat)
    requires a <= b
    ensures a * c <= b * c
  {
  }

  lemma DivMulBound(x: nat, d: nat, q: nat)
    requires d > 0
    ensures x < q * d ==> x / d < q
    ensures q * d <= x ==> q <= x / d
  {
    var p, r := x / d, x % d;
    assert x == p * d + r;
    if q <= p {
      MulMonotone(q, p, d);
    } else {
      MulMonotone(p + 1, q, d);
      assert (p + 1) * d == p * d + d;
    }
  }

  lemma DivPlus(x: nat, d: nat)
    requires d > 0
    ensures (x + d) / d == x / d + 1
  {
    var q := x / d;
    assert q * d <= x < q * d + d;
    assert (q + 1) * d == q * d + d && (q + 2) * d == q * d + d + d;
    DivMulBound(x + d, d, q + 1);
    DivMulBound(x + d, d, q + 2);
  }

  lemma CeilDivMonotone(x: nat, y: nat, d: nat)
    requires d > 0 && x <= y
    ensures CeilDiv(x, d) <= CeilDiv(y, d)
  {
    var q := (x + d - 1) / d;
    assert q * d <= x + d - 1;
    DivMulBound(y + d - 1, d, q);
  }

  /** A multiple of d is strictly below everything to its right, rounded up. */
  lemma CeilDivStrict(x: nat, y: nat, d: nat)
    requires d > 0 && x < y && x % d == 0
    ensures CeilDiv(x, d) < CeilDiv(y, d)
  {
    var q := x / d;
    assert x == q * d;
    DivMulBound(x + d - 1, d, q + 1);
    assert (q + 1) * d == x + d;
    DivMulBound(y + d - 1, d, q + 1);
  }

  lemma CeilNone(d: nat)
    requires d > 0
    ensures CeilDiv(0, d) == 0
  {
    DivMulBound(d - 1, d, 1);
  }

  /** Taking off one whole part, or the short last one, takes one off the count. */
  lemma CeilStep(x: nat, d: nat)
    requires d > 0 && x > 0
    ensures CeilDiv(x, d) == 1 + CeilDiv(if x > d then x - d else 0, d)
  {
    DivPlus(x - 1, d);
    if x <= d {
      CeilNone(d);
      DivMulBound(x - 1, d, 1);
    }
  }
}
