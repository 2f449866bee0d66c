/**
 * The frame check sequence (nrzi_compute_fcs in nrzi.c, and the comparison in afsk_demod.c): the reflected
 * CRC-CCITT on machine words, the bit-serial register it computes, and the errors it detects.
 */
module Fcs {

  import opened BitWords

  const POLY: bv16 := 0x8408
  const INIT: bv16 := 0xFFFF

  // ---- The register as sixteen bits ----

  type Reg = r: seq<bool> | |r| == 16 witness seq(16, _ => false)

  function Zero(): Reg {
    seq(16, _ => false)
  }

  function Ones(): Reg {
    seq(16, _ => true)
  }

  /** The taps of 0x8408: bits 3, 10 and 15. */
  function Taps(): Reg {
    seq(16, i => i == 3 || i == 10 || i == 15)
  }

  function Down(r: Reg): Reg {
    r[1..] + [false]
  }

  /** One shift: the bit that falls out feeds back into the taps. */
  function Shift(r: Reg): Reg {
    if r[0] then Xor(Down(r), Taps()) else Down(r)
  }

  /** One message bit: it joins the bit that falls out. */
  function Step(r: Reg, b: bool): Reg {
    if r[0] != b then Xor(Down(r), Taps()) else Down(r)
  }

  /** The register after a run of message bits. */
  function Serial(r: Reg, bits: seq<bool>): Reg
    decreases |bits|
  {
    if bits == [] then r else Serial(Step(r, bits[0]), bits[1..])
  }

  /** The sixteen check bits sent after a message. */
  function CheckBits(message: seq<bool>): Reg {
    Xor(Serial(Ones(), message), Ones())
  }

  lemma {:induction false} SerialAppend(r: Reg, a: seq<bool>, b: seq<bool>)
    ensures Serial(r, a + b) == Serial(Serial(r, a), b)
    decreases |a|
  {
    if a == [] {
      assert a + b == b;
    } else {
      SerialAppend(Step(r, a[0]), a[1..], b);
      assert (a + b)[1..] == a[1..] + b;
    }
  }

  // ---- Linearity ----

  lemma StepLinear(r: Reg, s: Reg, x: bool, y: bool)
    ensures Step(Xor(r, s), x != y) == Xor(Step(r, x), Step(s, y))
  {
  }

  lemma {:induction false} SerialLinear(r: Reg, s: Reg, w: seq<bool>, e: seq<bool>)
    requires |w| == |e|
    ensures Serial(Xor(r, s), Xor(w, e)) == Xor(Serial(r, w), Serial(s, e))
    decreases |w|
  {
    if w != [] {
      StepLinear(r, s, w[0], e[0]);
      SerialLinear(Step(r, w[0]), Step(s, e[0]), w[1..], e[1..]);
      assert Xor(w, e)[1..] == Xor(w[1..], e[1..]);
    }
  }

  // ---- A nonzero burst of at most sixteen bits leaves a nonzero register ----

  ghost predicate SetFrom(r: Reg, lo: nat) {
    exists j :: lo <= j < 16 && r[j]
  }

  /** The highest set bit falls by at most one a step, because feedback sets the top bit again. */
  lemma HighBit(r: Reg, b: bool, lo: nat)
    requires SetFrom(r, lo) && lo > 0
    ensures SetFrom(Step(r, b), lo - 1)
  {
    var j :| lo <= j < 16 && r[j];
    if r[0] != b {
      assert Step(r, b)[15];
    } else {
      assert Step(r, b)[j - 1];
    }
  }

  lemma {:induction false} StaysSet(r: Reg, bits: seq<bool>, lo: nat)
    requires SetFrom(r, lo) && |bits| <= lo
    ensures Serial(r, bits) != Zero()
    decreases |bits|
  {
    if bits == [] {
      var j :| lo <= j < 16 && r[j];
      assert !Zero()[j];
    } else {
      HighBit(r, bits[0], lo);
      StaysSet(Step(r, bits[0]), bits[1..], lo - 1);
    }
  }

  lemma ZeroStep()
    ensures Step(Zero(), false) == Zero()
  {
  }

  lemma {:induction false} BurstShows(u: seq<bool>)
    requires |u| <= 16 && true in u
    ensures Serial(Zero(), u) != Zero()
  {
    if u[0] {
      assert Step(Zero(), true)[15];
      StaysSet(Step(Zero(), true), u[1..], 15);
    } else {
      ZeroStep();
      BurstShows(u[1..]);
    }
  }

  /** Clean bits never clear a register that is not zero, and never set one that is. */
  lemma {:induction false} CleanBits(r: Reg, n: nat)
    ensures Serial(r, seq(n, _ => false)) == Zero() <==> r == Zero()
    decreases n
  {
    var z := seq(n, _ => false);
    if n > 0 {
      assert z[1..] == seq(n - 1, _ => false);
      CleanBits(Step(r, false), n - 1);
      StepNonzero(r);
    }
  }

  lemma StepNonzero(r: Reg)
    ensures Step(r, false) == Zero() <==> r == Zero()
  {
    ZeroStep();
    if r[0] {
      assert Step(r, false)[15];
    } else if r != Zero() {
      var j :| 0 <= j < 16 && r[j];
      assert Step(r, false)[j - 1];
    }
  }

  // ---- Parity ----

  function Parity(w: seq<bool>): bool {
    if w == [] then false else w[0] != Parity(w[1..])
  }

  lemma {:induction false} ParityAppend(a: seq<bool>, b: seq<bool>)
    ensures Parity(a + b) == (Parity(a) != Parity(b))
  {
    if a == [] {
      assert a + b == b;
    } else {
      ParityAppend(a[1..], b);
      assert (a + b)[1..] == a[1..] + b;
    }
  }

  lemma {:induction false} ParityXor(a: seq<bool>, b: seq<bool>)
    requires |a| == |b|
    ensures Parity(Xor(a, b)) == (Parity(a) != Parity(b))
  {
    if a != [] {
      ParityXor(a[1..], b[1..]);
      assert Xor(a, b)[1..] == Xor(a[1..], b[1..]);
    }
  }

  lemma {:induction false} ParityClean(n: nat)
    ensures !Parity(seq(n, _ => false))
  {
    if n > 0 {
      ParityClean(n - 1);
      assert seq(n, _ => false)[1..] == seq(n - 1, _ => false);
    }
  }

  /** Three taps: an odd number. */
  lemma ParityTaps()
    ensures Parity(Taps())
  {
    var f, t := seq(3, _ => false), [true];
    var g, h := seq(6, _ => false), seq(4, _ => false);
    assert Taps() == f + (t + (g + (t + (h + t))));
    ParityClean(3);
    ParityClean(6);
    ParityClean(4);
    assert Parity(t) by { assert t[1..] == []; }
    ParityAppend(h, t);
    ParityAppend(t, h + t);
    ParityAppend(g, t + (h + t));
    ParityAppend(t, g + (t + (h + t)));
    ParityAppend(f, t + (g + (t + (h + t))));
  }

  lemma StepParity(r: Reg, b: bool)
    ensures Parity(Step(r, b)) == (Parity(r) != b)
  {
    ParityAppend(r[1..], [false]);
    assert !Parity([false]) by { assert [false][1..] == []; }
    ParityTaps();
    ParityXor(Down(r), Taps());
  }

  lemma {:induction false} SerialParity(r: Reg, bits: seq<bool>)
    ensures Parity(Serial(r, bits)) == (Parity(r) != Parity(bits))
    decreases |bits|
  {
    if bits != [] {
      StepParity(r, bits[0]);
      SerialParity(Step(r, bits[0]), bits[1..]);
    }
  }

  // ---- What the receiver's comparison detects ----

  /** The last sixteen bits are the check bits of the rest. */
  predicate Accepts(w: seq<bool>)
    requires |w| >= 16
  {
    w[|w| - 16..] == CheckBits(w[..|w| - 16])
  }

  /** The register every accepted word leaves. */
  function Good(): Reg {
    Serial(Zero(), Ones())
  }

  /** Message bits equal to the register cancel it. */
  lemma {:induction false} SelfCancels(a: seq<bool>)
    requires |a| <= 16
    ensures Serial(a + seq(16 - |a|, _ => false), a) == Zero()
  {
    var r := a + seq(16 - |a|, _ => false);
    if a == [] {
      assert r == Zero();
    } else {
      assert Step(r, a[0]) == a[1..] + seq(16 - |a[1..]|, _ => false);
      SelfCancels(a[1..]);
    }
  }

  lemma GoodTail(r: Reg)
    ensures Serial(r, Xor(r, Ones())) == Good()
  {
    SelfCancels(r);
    assert r + seq(0, _ => false) == r;
    SerialLinear(r, Zero(), r, Ones());
    assert Xor(r, Zero()) == r;
    assert Xor(Zero(), Good()) == Good();
  }

  lemma XorBack(a: seq<bool>, b: seq<bool>)
    requires |a| == |b|
    ensures Xor(b, Xor(a, b)) == a && (a != b ==> true in Xor(a, b))
  {
    assert Xor(b, Xor(a, b)) == a;
    if a != b {
      var i :| 0 <= i < |a| && a[i] != b[i];
      assert Xor(a, b)[i];
    }
  }

  lemma GoodTailOnly(r: Reg, f: Reg)
    ensures Serial(r, f) == Good() <==> f == Xor(r, Ones())
  {
    var c := Xor(r, Ones());
    GoodTail(r);
    XorBack(f, c);
    var e := Xor(f, c);
    SerialLinear(r, Zero(), c, e);
    assert Xor(r, Zero()) == r;
    if f != c {
      BurstShows(e);
      XorNonzero(Good(), Serial(Zero(), e));
    }
  }

  lemma XorNonzero(a: Reg, b: Reg)
    ensures Xor(a, b) == a <==> b == Zero()
  {
    assert forall i :: 0 <= i < 16 ==> Xor(a, b)[i] == (a[i] != b[i]);
    if b == Zero() {
      assert Xor(a, b) == a;
    } else {
      var j :| 0 <= j < 16 && b[j];
    }
  }

  /** The comparison of the check bits is a test of the register after all the bits. */
  lemma Residue(w: seq<bool>)
    requires |w| >= 16
    ensures Accepts(w) <==> Serial(Ones(), w) == Good()
  {
    assert w == w[..|w| - 16] + w[|w| - 16..];
    ResidueOf(w, w[..|w| - 16], w[|w| - 16..]);
  }

  lemma ResidueOf(w: seq<bool>, message: seq<bool>, check: Reg)
    requires w == message + check
    ensures check == CheckBits(message) <==> Serial(Ones(), w) == Good()
  {
    SerialAppend(Ones(), message, check);
    GoodTailOnly(Serial(Ones(), message), check);
  }

  /** An altered word passes exactly when the alteration alone leaves the register at zero. */
  lemma Undetected(w: seq<bool>, e: seq<bool>)
    requires |e| == |w| >= 16 && Accepts(w)
    ensures Accepts(Xor(w, e)) <==> Serial(Zero(), e) == Zero()
  {
    Residue(w);
    Residue(Xor(w, e));
    Disturbed(w, e);
    XorNonzero(Good(), Serial(Zero(), e));
  }

  lemma Disturbed(w: seq<bool>, e: seq<bool>)
    requires |e| == |w|
    ensures Serial(Ones(), Xor(w, e)) == Xor(Serial(Ones(), w), Serial(Zero(), e))
  {
    SerialLinear(Ones(), Zero(), w, e);
    assert Xor(Ones(), Zero()) == Ones();
  }

  /** A burst leaves a nonzero register, wherever it falls. */
  lemma BurstAnywhere(e: seq<bool>, at: nat)
    requires true in e && forall i :: 0 <= i < |e| && e[i] ==> at <= i < at + 16
    ensures Serial(Zero(), e) != Zero()
  {
    var end := if at + 16 <= |e| then at + 16 else |e|;
    var k :| 0 <= k < |e| && e[k];
    var u, z := e[at..end], |e| - end;
    assert u[k - at];
    assert forall i :: 0 <= i < z ==> e[end..][i] == e[end + i];
    assert e[..at] == seq(at, _ => false) && e[end..] == seq(z, _ => false);
    assert e == e[..at] + (u + e[end..]);
    SerialAppend(Zero(), e[..at], u + e[end..]);
    CleanBits(Zero(), at);
    SerialAppend(Zero(), u, e[end..]);
    BurstShows(u);
    CleanBits(Serial(Zero(), u), z);
  }

  /** Any alteration confined to sixteen consecutive bits is detected, wherever it falls, check bits included. */
  lemma BurstDetected(w: seq<bool>, e: seq<bool>, at: nat)
    requires |e| == |w| >= 16 && Accepts(w) && true in e
    requires forall i :: 0 <= i < |e| && e[i] ==> at <= i < at + 16
    ensures !Accepts(Xor(w, e))
  {
    BurstAnywhere(e, at);
    Undetected(w, e);
  }

  function Flips(e: seq<bool>): nat {
    if e == [] then 0 else (if e[0] then 1 else 0) + Flips(e[1..])
  }

  lemma {:induction false} FlipsParity(e: seq<bool>)
    ensures Parity(e) <==> Flips(e) % 2 == 1
  {
    if e != [] {
      FlipsParity(e[1..]);
    }
  }

  /** So does an odd number of set bits. */
  lemma OddShows(e: seq<bool>)
    requires Flips(e) % 2 == 1
    ensures Serial(Zero(), e) != Zero()
  {
    FlipsParity(e);
    SerialParity(Zero(), e);
    ParityClean(16);
    assert Zero() == seq(16, _ => false);
  }

  /** Any odd number of flipped bits is detected. */
  lemma OddDetected(w: seq<bool>, e: seq<bool>)
    requires |e| == |w| >= 16 && Accepts(w) && Flips(e) % 2 == 1
    ensures !Accepts(Xor(w, e))
  {
    OddShows(e);
    Undetected(w, e);
  }

  // ---- The machine-word form computes the register ----

  function ShiftWord(x: bv16): bv16 {
    if x & 1 == 1 then (x >> 1) ^ POLY else x >> 1
  }

  lemma WordDown(x: bv16)
    ensures WordBits(x >> 1) == Down(WordBits(x))
  {
    RightAll(x);
    BelowTop(x >> 1, 15);
    FirstDigit(x, 16);
  }

  lemma LowTaps()
    ensures Digits(0x8408, 8) == [false, false, false, true, false, false, false, false]
  {
    FirstDigit(0x8408, 8);
    FirstDigit(0x4204, 7);
    FirstDigit(0x2102, 6);
    FirstDigit(0x1081, 5);
    FirstDigit(0x0840, 4);
    FirstDigit(0x0420, 3);
    FirstDigit(0x0210, 2);
    FirstDigit(0x0108, 1);
  }

  lemma HighTaps()
    ensures Digits(0x84, 8) == [false, false, true, false, false, false, false, true]
  {
    FirstDigit(0x84, 8);
    FirstDigit(0x42, 7);
    FirstDigit(0x21, 6);
    FirstDigit(0x10, 5);
    FirstDigit(0x08, 4);
    FirstDigit(0x04, 3);
    FirstDigit(0x02, 2);
    FirstDigit(0x01, 1);
  }

  lemma WordTaps()
    ensures WordBits(POLY) == Taps()
  {
    LowTaps();
    HighTaps();
    DigitsSplit(0x8408, 8, 8);
    RightEight(0x8408);
  }

  /** One machine shift is one shift of the register. */
  lemma WordShift(x: bv16)
    ensures WordBits(ShiftWord(x)) == Shift(WordBits(x))
  {
    WordDown(x);
    WordTaps();
    DigitsXor(x >> 1, POLY, 16);
    FirstDigit(x, 16);
  }

  function Shifts(r: Reg, n: nat): Reg
    decreases n, r
  {
    if n == 0 then r else Shifts(Shift(r), n - 1)
  }

  /** Adding up to sixteen bits at once and shifting as often is taking them in one at a time. */
  lemma {:induction false} AllAtOnce(r: Reg, u: seq<bool>)
    requires |u| <= 16
    ensures Shifts(Xor(r, u + Clear(16 - |u|)), |u|) == Serial(r, u)
    decreases |u|
  {
    if u == [] {
      assert Xor(r, [] + Clear(16)) == r;
    } else {
      FirstOfMany(r, u);
      AllAtOnce(Step(r, u[0]), u[1..]);
    }
  }

  lemma FirstOfMany(r: Reg, u: seq<bool>)
    requires 0 < |u| <= 16
    ensures Shift(Xor(r, u + Clear(16 - |u|))) == Xor(Step(r, u[0]), u[1..] + Clear(16 - |u[1..]|))
  {
    var p, q := u + Clear(16 - |u|), u[1..] + Clear(16 - |u[1..]|);
    assert Down(p) == q;
    assert Xor(r, p)[0] == (r[0] != u[0]);
    assert Down(Xor(r, p)) == Xor(Down(r), q);
    assert Xor(Xor(Down(r), q), Taps()) == Xor(Xor(Down(r), Taps()), q);
  }

  lemma OctetIn(start: bv16, b: octet)
    ensures Shifts(WordBits(start ^ (b as bv16)), 8) == Serial(WordBits(start), OctetBits(b))
  {
    DigitsXor(start, b as bv16, 16);
    LowDigits(b);
    AllAtOnce(WordBits(start), OctetBits(b));
  }

  /** The inner loop of the checksum: eight shifts. */
  method ShiftEight(start: bv16) returns (crc: bv16)
    ensures WordBits(crc) == Shifts(WordBits(start), 8)
  {
    crc := start;
    for j := 0 to 8
      invariant Shifts(WordBits(crc), 8 - j) == Shifts(WordBits(start), 8)
    {
      crc := ShiftOnce(crc);
    }
  }

  method TakeOctet(start: bv16, b: octet) returns (crc: bv16)
    ensures WordBits(crc) == Serial(WordBits(start), OctetBits(b))
  {
    OctetIn(start, b);
    crc := ShiftEight(start ^ (b as bv16));
  }

  method ShiftOnce(x: bv16) returns (y: bv16)
    ensures WordBits(y) == Shift(WordBits(x))
  {
    WordShift(x);
    if x & 1 == 1 {
      y := (x >> 1) ^ POLY;
    } else {
      y := x >> 1;
    }
  }

  /** The checksum of nrzi.c is the check bits of the message's bits. */
  method ComputeFcs(data: seq<octet>) returns (fcs: bv16)
    ensures WordBits(fcs) == CheckBits(Bits(data))
  {
    var crc := INIT;
    InitOnes();
    assert data[0..] == data;
    for i := 0 to |data|
      invariant Serial(WordBits(crc), Bits(data[i..])) == Serial(Ones(), Bits(data))
    {
      NextOctet(WordBits(crc), data, i);
      crc := TakeOctet(crc, data[i]);
    }
    assert data[|data|..] == [];
    fcs := Complement(crc);
  }

  lemma NextOctet(r: Reg, data: seq<octet>, i: nat)
    requires i < |data|
    ensures Serial(r, Bits(data[i..])) == Serial(Serial(r, OctetBits(data[i])), Bits(data[i + 1..]))
  {
    assert data[i..][1..] == data[i + 1..];
    SerialAppend(r, OctetBits(data[i]), Bits(data[i + 1..]));
  }

  lemma OnesEight(x: bv16)
    requires x & 0xFF == 0xFF
    ensures Digits(x, 8) == seq(8, _ => true)
  {
    FirstDigit(x, 8);
    FirstDigit(x >> 1, 7);
    FirstDigit(x >> 2, 6);
    FirstDigit(x >> 3, 5);
    FirstDigit(x >> 4, 4);
    FirstDigit(x >> 5, 3);
    FirstDigit(x >> 6, 2);
    FirstDigit(x >> 7, 1);
  }

  lemma InitOnes()
    ensures WordBits(0xFFFF) == Ones()
  {
    OnesEight(0xFFFF);
    OnesEight(0xFF);
    DigitsSplit(0xFFFF, 8, 8);
    RightEight(0xFFFF);
  }

  method Complement(x: bv16) returns (y: bv16)
    ensures WordBits(y) == Xor(WordBits(x), Ones())
  {
    y := x ^ 0xFFFF;
    InitOnes();
    DigitsXor(x, 0xFFFF, 16);
  }
}
