/** Polynomials over the two-element field as runs of coefficients, highest power first, and division with remainder. */
module Polynomial {
  import opened BitWords

  /** The product, coefficient by coefficient of the first factor. */
  function Product(q: seq<bool>, p: seq<bool>): (r: seq<bool>)
    requires p != []
    ensures |r| == |q| + |p| - 1
    decreases |q|
  {
    if q == [] then Clear(|p| - 1)
    else Xor((if q[0] then p else Clear(|p|)) + Clear(|q| - 1), [false] + Product(q[1..], p))
  }

  /** m == q * p + r, with r of lower degree than p. */
  ghost predicate Divides(m: seq<bool>, q: seq<bool>, p: seq<bool>, r: seq<bool>)
    requires p != []
  {
    |r| == |p| - 1 && |m| == |q| + |r| && m == Xor(Product(q, p), Clear(|q|) + r)
  }

  /** r is what is left of m after division by p. */
  ghost predicate IsRemainder(m: seq<bool>, p: seq<bool>, r: seq<bool>)
    requires p != []
  {
    exists q :: Divides(m, q, p, r)
  }

  /** Quotient and remainder are determined by the dividend. */
  lemma {:induction false} DivisionUnique(m: seq<bool>, p: seq<bool>, q: seq<bool>, r: seq<bool>, q': seq<bool>, r': seq<bool>)
    requires p != [] && p[0] && Divides(m, q, p, r) && Divides(m, q', p, r')
    ensures q == q' && r == r'
    decreases |q|
  {
    if q == [] {
      assert m == r && m == r';
    } else {
      Leading(m, q, p, r);
      Leading(m, q', p, r');
      var less := Xor(m, (if q[0] then p else Clear(|p|)) + Clear(|q| - 1))[1..];
      DivisionUnique(less, p, q[1..], r, q'[1..], r');
      assert q == [q[0]] + q[1..] && q' == [q'[0]] + q'[1..];
    }
  }

  /** The first coefficient of the quotient is that of the dividend; taking it away leaves a shorter division. */
  lemma Leading(m: seq<bool>, q: seq<bool>, p: seq<bool>, r: seq<bool>)
    requires p != [] && p[0] && q != [] && Divides(m, q, p, r)
    ensures q[0] == m[0]
    ensures Divides(Xor(m, (if q[0] then p else Clear(|p|)) + Clear(|q| - 1))[1..], q[1..], p, r)
  {
    var head, tail := (if q[0] then p else Clear(|p|)) + Clear(|q| - 1), Product(q[1..], p);
    assert Clear(|q|) == [false] + Clear(|q| - 1);
    assert Clear(|q|) + r == [false] + (Clear(|q| - 1) + r);
    assert m[0] == (head[0] != false);
    assert Xor(m, head) == [false] + Xor(tail, Clear(|q| - 1) + r);
  }

  /** A remainder is unique. */
  lemma RemainderUnique(m: seq<bool>, p: seq<bool>, r: seq<bool>, r': seq<bool>)
    requires p != [] && p[0] && IsRemainder(m, p, r) && IsRemainder(m, p, r')
    ensures r == r'
  {
    var q :| Divides(m, q, p, r);
    var q' :| Divides(m, q', p, r');
    DivisionUnique(m, p, q, r, q', r');
  }

  /** One step of a division: the dividend's first coefficient, and a shorter dividend with the same remainder. */
  lemma DivisionStep(m: seq<bool>, less: seq<bool>, p: seq<bool>, r: seq<bool>)
    requires p != [] && |m| >= |p| && |less| == |m| - 1 && IsRemainder(less, p, r)
    requires m == Xor((if m[0] then p else Clear(|p|)) + Clear(|m| - |p|), [false] + less)
    ensures IsRemainder(m, p, r)
  {
    var q :| Divides(less, q, p, r);
    LongerQuotient(m[0], q, p, r, less);
    assert Divides(m, [m[0]] + q, p, r);
  }

  lemma LongerQuotient(c: bool, q: seq<bool>, p: seq<bool>, r: seq<bool>, less: seq<bool>)
    requires p != [] && Divides(less, q, p, r)
    ensures Divides(Xor((if c then p else Clear(|p|)) + Clear(|q|), [false] + less), [c] + q, p, r)
  {
    var t, head, tail := [c] + q, (if c then p else Clear(|p|)) + Clear(|q|), Product(q, p);
    assert t[1..] == q;
    assert Clear(|t|) + r == [false] + (Clear(|q|) + r);
    XorThree(head, [false] + tail, [false] + (Clear(|q|) + r));
    XorCons(false, tail, false, Clear(|q|) + r);
  }

  lemma XorThree(a: seq<bool>, b: seq<bool>, c: seq<bool>)
    requires |a| == |b| == |c|
    ensures Xor(Xor(a, b), c) == Xor(a, Xor(b, c))
  {
  }

  lemma NoDivision(r: seq<bool>, p: seq<bool>)
    requires p != [] && |r| == |p| - 1
    ensures IsRemainder(r, p, r)
  {
    assert Xor(Product([], p), Clear(0) + r) == r;
    assert Divides(r, [], p, r);
  }
}
