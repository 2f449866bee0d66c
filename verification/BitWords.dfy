/** Octets and 16-bit machine words as runs of bits, least significant first. */
module BitWords {

  import opened Sequences

  type octet = bv8

  predicate Low(x: bv16) {
    x & 1 == 1
  }

  /** The n lowest bits of a word. */
  function Digits(x: bv16, n: nat): (r: seq<bool>)
    ensures |r| == n
    decreases n, x
  {
    if n == 0 then [] else [Low(x)] + Digits(x >> 1, n - 1)
  }

  function OctetBits(b: octet): (r: seq<bool>)
    ensures |r| == 8
  {
    Digits(b as bv16, 8)
  }

  function WordBits(x: bv16): (r: seq<bool>)
    ensures |r| == 16
  {
    Digits(x, 16)
  }

  function Bits(data: seq<octet>): (r: seq<bool>)
    ensures |r| == 8 * |data|
  {
    if data == [] then [] else OctetBits(data[0]) + Bits(data[1..])
  }

  lemma {:induction false} BitsAppend(a: seq<octet>, b: seq<octet>)
    ensures Bits(a + b) == Bits(a) + Bits(b)
  {
    if a == [] {
      assert a + b == b;
    } else {
      BitsAppend(a[1..], b);
      BitsCons(a[0], a[1..]);
      BitsCons(a[0], a[1..] + b);
      assert a == [a[0]] + a[1..] && a + b == [a[0]] + (a[1..] + b);
      Assoc(OctetBits(a[0]), Bits(a[1..]), Bits(b));
    }
  }

  lemma BitsCons(b: octet, rest: seq<octet>)
    ensures Bits([b] + rest) == OctetBits(b) + Bits(rest)
  {
    assert ([b] + rest)[1..] == rest;
  }

  function Xor(a: seq<bool>, b: seq<bool>): (r: seq<bool>)
    requires |a| == |b|
    ensures |r| == |a|
  {
    seq(|a|, i requires 0 <= i < |a| => a[i] != b[i])
  }

  function Clear(n: nat): (r: seq<bool>)
    ensures |r| == n
  {
    seq(n, _ => false)
  }

  // ---- Exclusive or ----

  lemma LowXor(x: bv16, y: bv16)
    ensures Low(x ^ y) == (Low(x) != Low(y))
  {
  }

  lemma HalfXor(x: bv16, y: bv16)
    ensures (x ^ y) >> 1 == (x >> 1) ^ (y >> 1)
  {
  }

  lemma {:induction false} DigitsXor(x: bv16, y: bv16, n: nat)
    ensures Digits(x ^ y, n) == Xor(Digits(x, n), Digits(y, n))
    decreases n
  {
    if n > 0 {
      LowXor(x, y);
      HalfXor(x, y);
      DigitsXor(x >> 1, y >> 1, n - 1);
      XorCons(Low(x), Digits(x >> 1, n - 1), Low(y), Digits(y >> 1, n - 1));
    }
  }

  lemma XorCons(a: bool, r: seq<bool>, b: bool, s: seq<bool>)
    requires |r| == |s|
    ensures Xor([a] + r, [b] + s) == [a != b] + Xor(r, s)
  {
  }

  // ---- Words below a power of two ----

  predicate Below(x: bv16, n: nat)
    decreases n
  {
    if n == 0 then x == 0 else Below(x >> 1, n - 1)
  }

  lemma {:induction false} BelowTop(x: bv16, n: nat)
    requires Below(x, n)
    ensures Digits(x, n + 1) == Digits(x, n) + [false]
    decreases n
  {
    if n == 0 {
      assert Digits(x >> 1, 0) == [];
    } else {
      BelowTop(x >> 1, n - 1);
    }
  }

  lemma {:induction false} BelowPad(x: bv16, n: nat, k: nat)
    requires Below(x, n)
    ensures Digits(x, n + k) == Digits(x, n) + Clear(k)
    decreases k
  {
    if k > 0 {
      BelowPad(x, n, k - 1);
      BelowMore(x, n, k - 1);
      BelowTop(x, n + k - 1);
      assert Clear(k) == Clear(k - 1) + [false];
    }
  }

  lemma {:induction false} BelowMore(x: bv16, n: nat, k: nat)
    requires Below(x, n)
    ensures Below(x, n + k)
    decreases n + k
  {
    if n > 0 {
      BelowMore(x >> 1, n - 1, k);
    } else if k > 0 {
      assert x >> 1 == 0;
      BelowMore(x >> 1, 0, k - 1);
    }
  }

  function Right(x: bv16, n: nat): bv16
    decreases n
  {
    if n == 0 then x else Right(x >> 1, n - 1)
  }

  lemma {:induction false} BelowRight(x: bv16, n: nat)
    ensures Below(x, n) <==> Right(x, n) == 0
    decreases n
  {
    if n > 0 {
      BelowRight(x >> 1, n - 1);
    }
  }

  lemma {:induction false} DigitsSplit(x: bv16, n: nat, m: nat)
    ensures Digits(x, n + m) == Digits(x, n) + Digits(Right(x, n), m)
    decreases n
  {
    if n > 0 {
      DigitsSplit(x >> 1, n - 1, m);
    } else {
      assert [] + Digits(x, m) == Digits(x, m);
    }
  }

  lemma RightEight(x: bv16)
    ensures Right(x, 8) == x >> 8
  {
    assert Right(x, 8) == Right(x >> 1, 7) == Right(x >> 2, 6) == Right(x >> 3, 5) == Right(x >> 4, 4);
    assert Right(x >> 4, 4) == Right(x >> 5, 3) == Right(x >> 6, 2) == Right(x >> 7, 1);
  }

  lemma RightAll(x: bv16)
    ensures Below(x, 16)
  {
    RightEight(x);
    RightEight(x >> 8);
    BelowRight(x >> 8, 8);
    RightSum(x, 8, 8);
    BelowRight(x, 16);
  }

  lemma {:induction false} RightSum(x: bv16, n: nat, m: nat)
    ensures Right(x, n + m) == Right(Right(x, n), m)
    decreases n
  {
    if n > 0 {
      RightSum(x >> 1, n - 1, m);
    }
  }

  /** A word is its bits. */
  lemma {:induction false} DigitsInjective(x: bv16, y: bv16, n: nat)
    requires Below(x, n) && Below(y, n) && Digits(x, n) == Digits(y, n)
    ensures x == y
    decreases n
  {
    if n > 0 {
      FirstDigit(x, n);
      FirstDigit(y, n);
      DigitsInjective(x >> 1, y >> 1, n - 1);
      Halves(x, y);
    } else {
      assert x == 0 == y;
    }
  }

  lemma FirstDigit(x: bv16, n: nat)
    requires n > 0
    ensures Digits(x, n)[0] == Low(x) && Digits(x, n)[1..] == Digits(x >> 1, n - 1)
  {
  }

  lemma Halves(x: bv16, y: bv16)
    requires x >> 1 == y >> 1 && Low(x) == Low(y)
    ensures x == y
  {
  }

  lemma OctetBelow(b: octet)
    ensures Below(b as bv16, 8)
  {
    RightEight(b as bv16);
    BelowRight(b as bv16, 8);
  }

  // ---- Two octets as a word ----

  function LowMask(n: nat): bv16 {
    if n == 0 then 0 else (LowMask(n - 1) << 1) | 1
  }

  lemma {:induction false} MaskedClear(x: bv16, n: nat)
    requires x & LowMask(n) == 0
    ensures Digits(x, n) == Clear(n)
    decreases n
  {
    if n > 0 {
      MaskedHalf(x, n);
      MaskedClear(x >> 1, n - 1);
      ClearCons(Digits(x, n), Digits(x >> 1, n - 1));
    }
  }

  lemma ClearCons(a: seq<bool>, b: seq<bool>)
    requires a == [false] + b && b == Clear(|b|)
    ensures a == Clear(|a|)
  {
  }

  lemma MaskedHalf(x: bv16, n: nat)
    requires n > 0 && x & LowMask(n) == 0
    ensures Digits(x, n) == [false] + Digits(x >> 1, n - 1) && (x >> 1) & LowMask(n - 1) == 0
  {
    MaskStep(x, LowMask(n - 1));
  }

  lemma MaskStep(x: bv16, m: bv16)
    requires x & ((m << 1) | 1) == 0
    ensures !Low(x) && (x >> 1) & m == 0
  {
  }

  lemma LowMaskEight()
    ensures LowMask(8) == 0xFF
  {
    assert LowMask(4) == 0xF by { assert LowMask(2) == 3; }
    assert LowMask(6) == 0x3F;
  }

  /** An octet moved up by eight leaves clear bits behind. */
  lemma RaisedClear(b: octet)
    ensures Digits((b as bv16) << 8, 8) == Clear(8)
  {
    LowMaskEight();
    MaskedClear((b as bv16) << 8, 8);
  }

  function Or(a: seq<bool>, b: seq<bool>): (r: seq<bool>)
    requires |a| == |b|
    ensures |r| == |a|
  {
    seq(|a|, i requires 0 <= i < |a| => a[i] || b[i])
  }

  lemma HalfOr(x: bv16, y: bv16)
    ensures (x | y) >> 1 == (x >> 1) | (y >> 1) && Low(x | y) == (Low(x) || Low(y))
  {
  }

  lemma {:induction false} DigitsOr(x: bv16, y: bv16, n: nat)
    ensures Digits(x | y, n) == Or(Digits(x, n), Digits(y, n))
    decreases n
  {
    if n > 0 {
      HalfOr(x, y);
      DigitsOr(x >> 1, y >> 1, n - 1);
      OrCons(Low(x), Digits(x >> 1, n - 1), Low(y), Digits(y >> 1, n - 1));
    }
  }

  lemma OrCons(a: bool, r: seq<bool>, b: bool, s: seq<bool>)
    requires |r| == |s|
    ensures Or([a] + r, [b] + s) == [a || b] + Or(r, s)
  {
  }

  lemma LowDigits(b: octet)
    ensures Digits(b as bv16, 16) == OctetBits(b) + Clear(8)
  {
    OctetBelow(b);
    BelowPad(b as bv16, 8, 8);
  }

  lemma RaisedDigits(b: octet)
    ensures Digits((b as bv16) << 8, 16) == Clear(8) + OctetBits(b)
  {
    DigitsSplit((b as bv16) << 8, 8, 8);
    RightEight((b as bv16) << 8);
    RaisedBack(b);
    RaisedClear(b);
  }

  lemma RaisedBack(b: octet)
    ensures ((b as bv16) << 8) >> 8 == b as bv16
  {
  }

  lemma WordJoin(lo: octet, hi: octet)
    ensures WordBits((lo as bv16) | ((hi as bv16) << 8)) == OctetBits(lo) + OctetBits(hi)
  {
    LowDigits(lo);
    RaisedDigits(hi);
    DigitsOr(lo as bv16, (hi as bv16) << 8, 16);
    OrApart(OctetBits(lo), OctetBits(hi));
  }

  lemma OrApart(a: seq<bool>, b: seq<bool>)
    requires |a| == |b| == 8
    ensures Or(a + Clear(8), Clear(8) + b) == a + b
  {
  }

  /** The two octets a check word is sent as. */
  lemma WordHalves(x: bv16)
    ensures OctetBits((x & 0xFF) as bv8) + OctetBits(((x >> 8) & 0xFF) as bv8) == WordBits(x)
  {
    WordJoin((x & 0xFF) as bv8, ((x >> 8) & 0xFF) as bv8);
    JoinHalves(x);
  }

  lemma JoinHalves(x: bv16)
    ensures (((x & 0xFF) as bv8) as bv16) | (((((x >> 8) & 0xFF) as bv8) as bv16) << 8) == x
  {
  }

  // ---- Bits in place ----

  lemma {:induction false} DigitAt(x: bv16, n: nat, j: nat)
    requires j < n
    ensures Digits(x, n)[j] == Low(Right(x, j))
    decreases j
  {
    FirstDigit(x, n);
    if j > 0 {
      DigitAt(x >> 1, n - 1, j - 1);
      assert Digits(x, n)[j] == Digits(x, n)[1..][j - 1];
    }
  }

  /** Bit j of an octet. */
  function BitAt(b: octet, j: nat): (r: bool)
    requires j < 8
    ensures r == OctetBits(b)[j]
  {
    DigitAt(b as bv16, 8, j);
    Low(Right(b as bv16, j))
  }

  /** An octet is its bits. */
  lemma OctetInjective(a: octet, b: octet)
    requires OctetBits(a) == OctetBits(b)
    ensures a == b
  {
    OctetBelow(a);
    OctetBelow(b);
    DigitsInjective(a as bv16, b as bv16, 8);
  }

  /** Bytes are their bits. */
  lemma {:induction false} BitsInjective(a: seq<octet>, b: seq<octet>)
    requires Bits(a) == Bits(b)
    ensures a == b
  {
    if a != [] {
      assert |b| == |a|;
      assert OctetBits(a[0]) == Bits(a)[..8] && OctetBits(b[0]) == Bits(b)[..8];
      assert Bits(a[1..]) == Bits(a)[8..] && Bits(b[1..]) == Bits(b)[8..];
      OctetInjective(a[0], b[0]);
      BitsInjective(a[1..], b[1..]);
    }
  }
}
