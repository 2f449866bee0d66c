/**
 * What the two checksums compute: remainders of polynomial division by x^16 + x^12 + x^5 + 1. The frame
 * checksum takes the bits of an octet lowest first, the bundle CRC highest first; the register is the same.
 */
module CrcPolynomial {
  import opened Bytes
  import opened BitWords
  import opened Fcs
  import Crc16
  import opened Polynomial

  /** x^16 + x^12 + x^5 + 1, highest power first. */
  function Ccitt(): (p: seq<bool>)
    ensures |p| == 17
  {
    [true, false, false, false, true, false, false, false, false, false, false, true, false, false, false, false, true]
  }

  /** The message times x^16, plus the initial register in front of it: r * x^n. */
  function Dividend(r: Reg, bits: seq<bool>): (m: seq<bool>)
    ensures |m| == |bits| + 16
  {
    Xor(bits + Clear(16), r + Clear(|bits|))
  }

  /** The register after a message is the remainder of the division, from whatever it started with. */
  lemma {:induction false} SerialIsRemainder(r: Reg, bits: seq<bool>)
    ensures IsRemainder(Dividend(r, bits), Ccitt(), Serial(r, bits))
    decreases |bits|
  {
    if bits == [] {
      assert Dividend(r, bits) == r;
      NoDivision(r, Ccitt());
    } else {
      SerialIsRemainder(Step(r, bits[0]), bits[1..]);
      OneBit(r, bits);
      DivisionStep(Dividend(r, bits), Dividend(Step(r, bits[0]), bits[1..]), Ccitt(), Serial(r, bits));
    }
  }

  lemma OneBit(r: Reg, bits: seq<bool>)
    requires bits != []
    ensures var m, less := Dividend(r, bits), Dividend(Step(r, bits[0]), bits[1..]);
            m == Xor((if m[0] then Ccitt() else Clear(17)) + Clear(|m| - 17), [false] + less)
  {
    var m, rest, out := Dividend(r, bits), bits[1..], r[0] != bits[0];
    var pad, word := Clear(|rest|), rest + Clear(16);
    var taps := if out then Taps() else Clear(16);
    TapsAre();
    assert bits + Clear(16) == [bits[0]] + word && r + Clear(|bits|) == [r[0]] + (Down(r) + pad);
    assert m == [out] + Xor(word, Down(r) + pad);
    assert (if out then Ccitt() else Clear(17)) + pad == [out] + (taps + pad);
    assert Step(r, bits[0]) == Xor(Down(r), taps);
    TwiceXor(word, Down(r), taps, pad);
    XorCons(out, taps + pad, false, Dividend(Step(r, bits[0]), rest));
  }

  lemma TwiceXor(word: seq<bool>, down: Reg, taps: Reg, pad: seq<bool>)
    requires |word| == 16 + |pad| && pad == Clear(|pad|)
    ensures Xor(taps + pad, Xor(word, Xor(down, taps) + pad)) == Xor(word, down + pad)
  {
  }

  lemma TapsAre()
    ensures Ccitt()[1..] == Taps()
  {
  }

  // ---- The frame checksum ----

  /** The check bits of a message, complemented, are the remainder of the message after sixteen ones. */
  lemma CheckBitsAreRemainder(message: seq<bool>)
    ensures IsRemainder(Dividend(seq(16, _ => true), message), Ccitt(), Xor(CheckBits(message), seq(16, _ => true)))
  {
    SerialIsRemainder(Ones(), message);
    assert Xor(CheckBits(message), Ones()) == Serial(Ones(), message);
  }

  // ---- The bundle CRC ----

  /** The bits of an octet, highest first. */
  function ByteBits(b: byte): (r: seq<bool>)
    ensures |r| == 8
  {
    [b / 128 % 2 == 1, b / 64 % 2 == 1, b / 32 % 2 == 1, b / 16 % 2 == 1,
     b / 8 % 2 == 1, b / 4 % 2 == 1, b / 2 % 2 == 1, b % 2 == 1]
  }

  /** The bits of a run of octets, highest first. */
  function MsbBits(data: seq<byte>): (r: seq<bool>)
    ensures |r| == 8 * |data|
  {
    if data == [] then [] else ByteBits(data[0]) + MsbBits(data[1..])
  }

  predicate Top(x: bv16) {
    x & 0x8000 == 0x8000
  }

  /** The n highest bits of a word. */
  function Leading(x: bv16, n: nat): (r: seq<bool>)
    ensures |r| == n
    decreases n, x
  {
    if n == 0 then [] else [Top(x)] + Leading(x << 1, n - 1)
  }

  /** The bits of a word, highest first. */
  function Msb(x: bv16): Reg {
    Leading(x, 16)
  }

  lemma TopXor(x: bv16, y: bv16)
    ensures Top(x ^ y) == (Top(x) != Top(y)) && (x ^ y) << 1 == (x << 1) ^ (y << 1)
  {
  }

  lemma {:induction false} LeadingXor(x: bv16, y: bv16, n: nat)
    ensures Leading(x ^ y, n) == Xor(Leading(x, n), Leading(y, n))
    decreases n
  {
    if n > 0 {
      TopXor(x, y);
      hide Top;
      LeadingXor(x << 1, y << 1, n - 1);
      XorCons(Top(x), Leading(x << 1, n - 1), Top(y), Leading(y << 1, n - 1));
    }
  }

  lemma MsbXor(x: bv16, y: bv16)
    ensures Msb(x ^ y) == Xor(Msb(x), Msb(y))
  {
    LeadingXor(x, y, 16);
  }

  function Left(x: bv16, n: nat): bv16
    decreases n
  {
    if n == 0 then x else Left(x << 1, n - 1)
  }

  lemma {:induction false} LeadingSplit(x: bv16, n: nat, m: nat)
    ensures Leading(x, n + m) == Leading(x, n) + Leading(Left(x, n), m)
    decreases n
  {
    hide Top;
    if n > 0 {
      LeadingSplit(x << 1, n - 1, m);
    } else {
      assert [] + Leading(x, m) == Leading(x, m);
    }
  }

  lemma LeftEight(x: bv16)
    ensures Left(x, 8) == x << 8
  {
    assert Left(x, 8) == Left(x << 1, 7) == Left(x << 2, 6) == Left(x << 3, 5) == Left(x << 4, 4);
    assert Left(x << 4, 4) == Left(x << 5, 3) == Left(x << 6, 2) == Left(x << 7, 1);
  }

  lemma EightLeading(x: bv16)
    ensures Leading(x, 8) == [Top(x), Top(x << 1), Top(x << 2), Top(x << 3),
                              Top(x << 4), Top(x << 5), Top(x << 6), Top(x << 7)]
  {
    hide Top;
    LeftShifts(x);
    FirstLeading(x, 8);
    FirstLeading(x << 1, 7);
    FirstLeading(x << 2, 6);
    FirstLeading(x << 3, 5);
    FirstLeading(x << 4, 4);
    FirstLeading(x << 5, 3);
    FirstLeading(x << 6, 2);
    FirstLeading(x << 7, 1);
  }

  lemma LeftShifts(x: bv16)
    ensures (x << 1) << 1 == x << 2 && (x << 2) << 1 == x << 3 && (x << 3) << 1 == x << 4
    ensures (x << 4) << 1 == x << 5 && (x << 5) << 1 == x << 6 && (x << 6) << 1 == x << 7
  {
  }

  lemma FirstLeading(x: bv16, n: nat)
    requires n > 0
    ensures Leading(x, n)[0] == Top(x) && Leading(x, n)[1..] == Leading(x << 1, n - 1)
  {
  }

  /** Two halves of eight bits. */
  lemma Halved(x: bv16)
    ensures Msb(x) == Leading(x, 8) + Leading(x << 8, 8)
  {
    LeadingSplit(x, 8, 8);
    LeftEight(x);
  }

  lemma Emptied(x: bv16)
    requires x << 8 == 0
    ensures Leading(x << 8, 8) == Clear(8)
  {
    EightLeading(0);
  }

  lemma MsbDown(x: bv16)
    ensures Msb(x << 1) == Down(Msb(x))
  {
    FirstLeading(x, 17);
    LeadingSplit(x, 16, 1);
    LeadingSplit(x, 8, 9);
    AllOut(x);
    FirstLeading(Left(x, 16), 1);
    FirstLeading(x, 16);
  }

  lemma AllOut(x: bv16)
    ensures Left(x, 16) == 0
  {
    LeftSum(x, 8, 8);
    LeftEight(x);
    LeftEight(x << 8);
  }

  lemma {:induction false} LeftSum(x: bv16, n: nat, m: nat)
    ensures Left(x, n + m) == Left(Left(x, n), m)
    decreases n
  {
    if n > 0 {
      LeftSum(x << 1, n - 1, m);
    }
  }

  lemma MsbPoly()
    ensures Msb(Crc16.POLY) == Taps() && Msb(Crc16.INIT) == Ones()
  {
    Halved(0x1021);
    Halved(0xFFFF);
    EightLeading(0x1021);
    EightLeading(0x2100);
    EightLeading(0xFFFF);
    EightLeading(0xFF00);
  }

  /** One machine shift to the left is one shift of the register. */
  lemma MsbShift(x: bv16)
    ensures Msb(Crc16.Shift(x)) == Shift(Msb(x))
  {
    MsbPoly();
    MsbDown(x);
    MsbXor(x << 1, Crc16.POLY);
    FirstLeading(x, 16);
    TopOne(x);
    hide Leading, Taps, Down, Top;
  }

  lemma TopOne(x: bv16)
    ensures Top(x) <==> x & 0x8000 != 0
  {
  }

  lemma {:induction false} MsbShifts(x: bv16, n: nat)
    ensures Msb(Crc16.Shifts(x, n)) == Shifts(Msb(x), n)
    decreases n
  {
    hide Msb, Crc16.Shift;
    if n > 0 {
      MsbShift(x);
      MsbShifts(Crc16.Shift(x), n - 1);
    }
  }

  /** An octet moved up by eight, as the loop adds it to the register. */
  lemma MsbOctet(b: byte)
    ensures Leading(Crc16.Word(b) << 8, 8) == ByteBits(b)
    ensures Msb(Crc16.Word(b) << 8) == ByteBits(b) + Clear(8)
  {
    var x := Crc16.Word(b) << 8;
    EightLeading(x);
    OctetTops(b);
    Halved(x);
    Raised(b);
    Emptied(x);
    hide Leading, Top;
  }

  lemma OctetTops(b: byte)
    ensures var x := Crc16.Word(b) << 8;
            ByteBits(b) == [Top(x), Top(x << 1), Top(x << 2), Top(x << 3), Top(x << 4), Top(x << 5), Top(x << 6), Top(x << 7)]
  {
  }

  lemma Raised(b: byte)
    ensures (Crc16.Word(b) << 8) << 8 == 0
  {
  }

  lemma OctetTaken(crc: bv16, b: byte)
    ensures Msb(Crc16.Shifts(crc ^ (Crc16.Word(b) << 8), 8)) == Serial(Msb(crc), ByteBits(b))
  {
    hide Msb, ByteBits;
    MsbShifts(crc ^ (Crc16.Word(b) << 8), 8);
    MsbXor(crc, Crc16.Word(b) << 8);
    MsbOctet(b);
    AllAtOnce(Msb(crc), ByteBits(b));
  }

  /** The octet loop computes the bit-serial register. */
  lemma {:induction false} RegisterIsSerial(crc: bv16, data: seq<byte>)
    ensures Msb(Crc16.Register(crc, data)) == Serial(Msb(crc), MsbBits(data))
    decreases |data|
  {
    if data != [] {
      hide Msb, ByteBits, Crc16.Shifts;
      OctetTaken(crc, data[0]);
      RegisterIsSerial(Crc16.Shifts(crc ^ (Crc16.Word(data[0]) << 8), 8), data[1..]);
      SerialAppend(Msb(crc), ByteBits(data[0]), MsbBits(data[1..]));
    }
  }

  lemma HighByte(x: bv16)
    ensures ByteBits(Crc16.Octet((x >> 8) as bv8)) == Leading(x, 8)
  {
    var o := Crc16.Octet((x >> 8) as bv8);
    MsbOctet(o);
    HighOctet(x);
    EightLeading(x);
    EightLeading(Crc16.Word(o) << 8);
    HighTops(x);
  }

  lemma HighOctet(x: bv16)
    ensures Crc16.Word(Crc16.Octet((x >> 8) as bv8)) << 8 == x & 0xFF00
  {
    WordOfOctet((x >> 8) as bv8);
    HighPart(x);
    hide *;
  }

  lemma HighPart(x: bv16)
    ensures (((x >> 8) as bv8) as bv16) << 8 == x & 0xFF00
  {
  }

  lemma WordOfOctet(y: bv8)
    ensures Crc16.Word(Crc16.Octet(y)) == y as bv16
  {
    WordOfByte(Crc16.Octet(y));
    assert Crc16.Octet(y) as bv8 == y;
    hide *;
  }

  lemma WordOfByte(b: byte)
    ensures Crc16.Word(b) == (b as bv8) as bv16
  {
  }

  lemma HighTops(x: bv16)
    ensures var y := x & 0xFF00;
            Top(x) == Top(y) && Top(x << 1) == Top(y << 1) && Top(x << 2) == Top(y << 2) && Top(x << 3) == Top(y << 3)
    ensures var y := x & 0xFF00;
            Top(x << 4) == Top(y << 4) && Top(x << 5) == Top(y << 5) && Top(x << 6) == Top(y << 6) && Top(x << 7) == Top(y << 7)
  {
  }

  lemma LowByte(x: bv16)
    ensures ByteBits(Crc16.Octet((x & 0xFF) as bv8)) == Leading(x << 8, 8)
  {
    MsbOctet(Crc16.Octet((x & 0xFF) as bv8));
    LowOctet(x);
  }

  lemma LowOctet(x: bv16)
    ensures Crc16.Word(Crc16.Octet((x & 0xFF) as bv8)) << 8 == x << 8
  {
    WordOfOctet((x & 0xFF) as bv8);
    LowPart(x);
    hide *;
  }

  lemma LowPart(x: bv16)
    ensures (((x & 0xFF) as bv8) as bv16) << 8 == x << 8
  {
  }

  /** The two octets written are the register, high octet first. */
  lemma OctetsAreSerial(data: seq<byte>)
    ensures MsbBits(Crc16.Octets(data)) == Serial(Ones(), MsbBits(data))
  {
    var x, o := Crc16.Register(Crc16.INIT, data), Crc16.Octets(data);
    RegisterIsSerial(Crc16.INIT, data);
    MsbPoly();
    HighByte(x);
    LowByte(x);
    Halved(x);
    TwoOctets(o[0], o[1]);
    assert o == [o[0], o[1]];
    hide *;
  }

  lemma TwoOctets(a: byte, b: byte)
    ensures MsbBits([a, b]) == ByteBits(a) + ByteBits(b)
  {
    hide ByteBits;
    assert [a, b][1..] == [b] && [b][1..] == [];
    assert ByteBits(b) + [] == ByteBits(b);
  }

  /** The CRC of a block is the remainder of its bits, highest first, after sixteen ones. */
  lemma CrcIsRemainder(data: seq<byte>)
    ensures IsRemainder(Dividend(seq(16, _ => true), MsbBits(data)), Ccitt(), MsbBits(Crc16.Octets(data)))
  {
    OctetsAreSerial(data);
    SerialIsRemainder(Ones(), MsbBits(data));
  }

  // ---- What the bundle CRC detects ----

  lemma {:induction false} MsbInjective(a: seq<byte>, b: seq<byte>)
    requires MsbBits(a) == MsbBits(b)
    ensures a == b
  {
    if a != [] {
      assert |b| == |a|;
      assert ByteBits(a[0]) == MsbBits(a)[..8] == MsbBits(b)[..8] == ByteBits(b[0]);
      assert MsbBits(a[1..]) == MsbBits(a)[8..] == MsbBits(b)[8..] == MsbBits(b[1..]);
      ByteInjective(a[0], b[0]);
      MsbInjective(a[1..], b[1..]);
    }
  }

  lemma ByteInjective(a: byte, b: byte)
    requires ByteBits(a) == ByteBits(b)
    ensures a == b
  {
    var x, y := Crc16.Word(a) << 8, Crc16.Word(b) << 8;
    MsbOctet(a);
    MsbOctet(b);
    EightLeading(x);
    EightLeading(y);
    Raised(a);
    Raised(b);
    hide ByteBits, Leading, Top, Crc16.Word;
    assert Leading(x, 8)[0] == Leading(y, 8)[0] && Leading(x, 8)[1] == Leading(y, 8)[1];
    assert Leading(x, 8)[2] == Leading(y, 8)[2] && Leading(x, 8)[3] == Leading(y, 8)[3];
    assert Leading(x, 8)[4] == Leading(y, 8)[4] && Leading(x, 8)[5] == Leading(y, 8)[5];
    assert Leading(x, 8)[6] == Leading(y, 8)[6] && Leading(x, 8)[7] == Leading(y, 8)[7];
    TopsDetermine(x, y);
    SameByte(a, b);
  }

  lemma TopsDetermine(x: bv16, y: bv16)
    requires x << 8 == 0 && y << 8 == 0
    requires Top(x) == Top(y) && Top(x << 1) == Top(y << 1) && Top(x << 2) == Top(y << 2) && Top(x << 3) == Top(y << 3)
    requires Top(x << 4) == Top(y << 4) && Top(x << 5) == Top(y << 5) && Top(x << 6) == Top(y << 6) && Top(x << 7) == Top(y << 7)
    ensures x == y
  {
  }

  lemma SameByte(a: byte, b: byte)
    requires Crc16.Word(a) << 8 == Crc16.Word(b) << 8
    ensures a == b
  {
    hide *;
    var x := AsBits(a);
    var y := AsBits(b);
    Lowered(x, y);
  }

  lemma AsBits(b: byte) returns (x: bv8)
    ensures Crc16.Word(b) == x as bv16 && Crc16.Octet(x) == b
  {
    x := b as bv8;
    WordOfByte(b);
    hide Crc16.Word;
  }

  lemma Lowered(x: bv8, y: bv8)
    requires (x as bv16) << 8 == (y as bv16) << 8
    ensures x == y
  {
  }

  /** Two blocks of one length have the same CRC exactly when their difference alone leaves the register at zero. */
  lemma SameCrc(a: seq<byte>, b: seq<byte>)
    requires |a| == |b|
    ensures Crc16.Octets(a) == Crc16.Octets(b) <==> Serial(Zero(), Xor(MsbBits(a), MsbBits(b))) == Zero()
  {
    var e := Xor(MsbBits(a), MsbBits(b));
    OctetsAreSerial(a);
    OctetsAreSerial(b);
    Disturbed(MsbBits(a), e);
    assert Xor(MsbBits(a), e) == MsbBits(b);
    XorNonzero(Serial(Ones(), MsbBits(a)), Serial(Zero(), e));
    if MsbBits(Crc16.Octets(a)) == MsbBits(Crc16.Octets(b)) {
      MsbInjective(Crc16.Octets(a), Crc16.Octets(b));
    }
  }

  /** Blocks that differ in a burst within sixteen consecutive bits have different CRCs. */
  lemma CrcBurst(a: seq<byte>, b: seq<byte>, at: nat)
    requires |a| == |b| && a != b
    requires forall i :: 0 <= i < 8 * |a| && MsbBits(a)[i] != MsbBits(b)[i] ==> at <= i < at + 16
    ensures Crc16.Octets(a) != Crc16.Octets(b)
  {
    var e := Xor(MsbBits(a), MsbBits(b));
    if MsbBits(a) == MsbBits(b) {
      MsbInjective(a, b);
    }
    XorBack(MsbBits(a), MsbBits(b));
    SameCrc(a, b);
    BurstAnywhere(e, at);
  }

  /** Blocks that differ in an odd number of bits have different CRCs. */
  lemma CrcOdd(a: seq<byte>, b: seq<byte>)
    requires |a| == |b| && Flips(Xor(MsbBits(a), MsbBits(b))) % 2 == 1
    ensures Crc16.Octets(a) != Crc16.Octets(b)
  {
    var e := Xor(MsbBits(a), MsbBits(b));
    SameCrc(a, b);
    OddShows(e);
  }
}
