/**
 * The receive side of afsk_demod.c from NRZI bits on: flag hunt, frame accumulation, destuffing and the
 * checksum test, one bit at a time, for one of the two polarities the demodulator runs side by side.
 */
module FrameDetector {
  import opened BitWords
  import opened Bytes
  import opened Fcs
  import opened Nrzi

  const MAX_FRAME_BITS := 4096

  // ---- Octets from bits ----

  function Bit(b: bool): bv8 {
    if b then 1 else 0
  }

  /** Eight bits, least significant first, as an octet. */
  function Pack(u: seq<bool>): octet
    requires |u| == 8
  {
    Bit(u[0]) | (Bit(u[1]) << 1) | (Bit(u[2]) << 2) | (Bit(u[3]) << 3)
    | (Bit(u[4]) << 4) | (Bit(u[5]) << 5) | (Bit(u[6]) << 6) | (Bit(u[7]) << 7)
  }

  function Octets(bits: seq<bool>): (r: seq<octet>)
    requires |bits| % 8 == 0
    ensures 8 * |r| == |bits|
    decreases |bits|
  {
    if bits == [] then [] else [Pack(bits[..8])] + Octets(bits[8..])
  }

  lemma PackOctetBits(b: octet)
    ensures Pack(OctetBits(b)) == b
  {
    var x := b as bv16;
    FirstDigit(x, 8);
    FirstDigit(x >> 1, 7);
    FirstDigit(x >> 2, 6);
    FirstDigit(x >> 3, 5);
    FirstDigit(x >> 4, 4);
    FirstDigit(x >> 5, 3);
    FirstDigit(x >> 6, 2);
    FirstDigit(x >> 7, 1);
  }

  lemma {:induction false} OctetsOfBits(data: seq<octet>)
    ensures Octets(Bits(data)) == data
  {
    if data != [] {
      PackOctetBits(data[0]);
      OctetsOfBits(data[1..]);
      assert Bits(data)[..8] == OctetBits(data[0]) && Bits(data)[8..] == Bits(data[1..]);
    }
  }

  /** Bit k of a packed octet is the k-th bit packed. */
  lemma PackBits(u: seq<bool>)
    requires |u| == 8
    ensures OctetBits(Pack(u)) == u
  {
    PackLow(u);
    EightDigits(Pack(u) as bv16);
  }

  lemma EightDigits(x: bv16)
    ensures Digits(x, 8) == [Low(x), Low(x >> 1), Low(x >> 2), Low(x >> 3),
                             Low(x >> 4), Low(x >> 5), Low(x >> 6), Low(x >> 7)]
  {
    hide Low;
    Shifts(x);
    FirstDigit(x, 8);
    FirstDigit(x >> 1, 7);
    FirstDigit(x >> 2, 6);
    FirstDigit(x >> 3, 5);
    FirstDigit(x >> 4, 4);
    FirstDigit(x >> 5, 3);
    FirstDigit(x >> 6, 2);
    FirstDigit(x >> 7, 1);
  }

  lemma Shifts(x: bv16)
    ensures (x >> 1) >> 1 == x >> 2 && (x >> 2) >> 1 == x >> 3 && (x >> 3) >> 1 == x >> 4
    ensures (x >> 4) >> 1 == x >> 5 && (x >> 5) >> 1 == x >> 6 && (x >> 6) >> 1 == x >> 7
  {
  }

  lemma PackLow(u: seq<bool>)
    requires |u| == 8
    ensures var x := Pack(u) as bv16;
            && Low(x) == u[0] && Low(x >> 1) == u[1] && Low(x >> 2) == u[2] && Low(x >> 3) == u[3]
            && Low(x >> 4) == u[4] && Low(x >> 5) == u[5] && Low(x >> 6) == u[6] && Low(x >> 7) == u[7]
  {
  }

  lemma {:induction false} BitsOfOctets(w: seq<bool>)
    requires |w| % 8 == 0
    ensures Bits(Octets(w)) == w
    decreases |w|
  {
    if w != [] {
      PackBits(w[..8]);
      BitsOfOctets(w[8..]);
      assert w == w[..8] + w[8..];
      assert Octets(w)[1..] == Octets(w[8..]);
    }
  }

  // ---- The detector as a state machine ----

  datatype Mode = Hunt | Sync | InFrame

  /** window is the shift register, oldest bit first; bits are what the current frame has gathered. */
  datatype Detector = Detector(mode: Mode, window: seq<bool>, bits: seq<bool>, prev: bool)

  datatype Fed = Fed(dec: Detector, events: seq<seq<octet>>)

  function Reset(): Detector {
    Detector(Hunt, Clear(8), [], false)
  }

  predicate Sound(d: Detector) {
    |d.window| == 8 && |d.bits| <= MAX_FRAME_BITS && (d.mode != InFrame ==> d.bits == [])
  }

  /** The first seven of the eight bits in the register are all ones: no frame and no flag contains that. */
  predicate Aborts(window: seq<bool>)
    requires |window| == 8
  {
    forall i :: 0 <= i < 7 ==> window[i]
  }

  /** A frame of at least sixteen octets whose checksum is right; spare bits beyond the last octet are ignored. */
  function FrameOf(destuffed: seq<bool>): Option<seq<octet>> {
    var n := |destuffed| / 8;
    if n < 18 || n > MAX_FRAME_BYTES then None
    else
      var w := destuffed[..8 * n];
      if Accepts(w) then Some(Octets(w[..8 * n - 16])) else None
  }

  function Event(o: Option<seq<octet>>): seq<seq<octet>> {
    if o.Some? then [o.value] else []
  }

  function FeedData(d: Detector, bit: bool): (f: Fed)
    requires Sound(d)
    ensures Sound(f.dec)
  {
    var e := d.(window := d.window[1..] + [bit]);
    match e.mode
    case Hunt => Fed(HuntStep(e), [])
    case Sync => Fed(SyncStep(e, bit), [])
    case InFrame => FrameStep(e, bit)
  }

  function HuntStep(d: Detector): Detector {
    if d.window == Flag() then d.(mode := Sync, bits := []) else d
  }

  /** After a flag: another flag, or the first bit of a frame. */
  function SyncStep(d: Detector, bit: bool): Detector {
    if d.window == Flag() then d.(bits := []) else d.(mode := InFrame, bits := [bit])
  }

  function FrameStep(d: Detector, bit: bool): Fed
    requires |d.window| == 8
  {
    if d.window == Flag() then Fed(d.(mode := Sync, bits := []), Event(FrameOf(Destuff(WithoutFlag(d.bits), 0))))
    else if Aborts(d.window) || |d.bits| >= MAX_FRAME_BITS then Fed(d.(mode := Hunt, bits := []), [])
    else Fed(d.(bits := d.bits + [bit]), [])
  }

  /** Seven bits of the closing flag have been gathered with the frame. */
  function WithoutFlag(bits: seq<bool>): (r: seq<bool>)
    ensures |r| <= |bits|
  {
    if |bits| >= 7 then bits[..|bits| - 7] else bits
  }

  /** One NRZI level: a held level is a one. */
  function FeedLevel(d: Detector, level: bool): (f: Fed)
    requires Sound(d)
    ensures Sound(f.dec)
  {
    FeedData(d.(prev := level), level == d.prev)
  }

  // ---- The register ----

  /** The register as the code shifts it: old bits down, the new bit on top. */
  lemma ShiftRegister(reg: bv8, bit: bool)
    ensures OctetBits((reg >> 1) | (if bit then 0x80 else 0)) == OctetBits(reg)[1..] + [bit]
  {
    ShiftLow(reg, bit);
    ShiftedDigits(((reg >> 1) | (if bit then 0x80 else 0)) as bv16, reg as bv16, bit);
  }

  lemma ShiftedDigits(x: bv16, y: bv16, bit: bool)
    requires Low(x) == Low(y >> 1) && Low(x >> 1) == Low(y >> 2) && Low(x >> 2) == Low(y >> 3)
    requires Low(x >> 3) == Low(y >> 4) && Low(x >> 4) == Low(y >> 5) && Low(x >> 5) == Low(y >> 6)
    requires Low(x >> 6) == Low(y >> 7) && Low(x >> 7) == bit
    ensures Digits(x, 8) == Digits(y, 8)[1..] + [bit]
  {
    EightDigits(x);
    EightDigits(y);
  }

  lemma ShiftLow(reg: bv8, bit: bool)
    ensures var x, y := ((reg >> 1) | (if bit then 0x80 else 0)) as bv16, reg as bv16;
            && Low(x) == Low(y >> 1) && Low(x >> 1) == Low(y >> 2) && Low(x >> 2) == Low(y >> 3)
            && Low(x >> 3) == Low(y >> 4) && Low(x >> 4) == Low(y >> 5) && Low(x >> 5) == Low(y >> 6)
            && Low(x >> 6) == Low(y >> 7) && Low(x >> 7) == bit
  {
  }

  lemma FlagRegister(reg: bv8)
    ensures reg == 0x7E <==> OctetBits(reg) == Flag()
  {
    EightDigits(0x7E);
    if OctetBits(reg) == Flag() {
      OctetInjective(reg, 0x7E);
    }
  }

  /** The code's run of ones, counted from the oldest bit. */
  method LeadingOnes(reg: bv8) returns (ones: nat)
    ensures ones >= 7 <==> Aborts(OctetBits(reg))
  {
    ones := 0;
    while ones < 8 && BitAt(reg, ones)
      invariant ones <= 8 && forall i :: 0 <= i < ones ==> OctetBits(reg)[i]
    {
      ones := ones + 1;
    }
  }

  // ---- The detector object ----

  class FrameDetector {
    var mode: Mode
    const frameBits: array<bool>
    var frameBitCount: nat
    var shiftReg: bv8
    var prevNrzi: bool
    var framesDecoded: nat
    var received: seq<seq<octet>>      // calls of the frame callback

    ghost predicate Valid()
      reads this
    {
      && frameBits.Length == MAX_FRAME_BITS && frameBitCount <= MAX_FRAME_BITS
      && (mode != InFrame ==> frameBitCount == 0) && framesDecoded == |received|
    }

    ghost function State(): (d: Detector)
      reads this, frameBits
      requires Valid()
      ensures Sound(d)
    {
      Detector(mode, OctetBits(shiftReg), frameBits[..frameBitCount], prevNrzi)
    }

    constructor ()
      ensures Valid() && State() == Reset() && received == [] && fresh(frameBits)
    {
      EightDigits(0);
      mode, frameBitCount, shiftReg, prevNrzi := Hunt, 0, 0, false;
      frameBits := new bool[MAX_FRAME_BITS];
      framesDecoded, received := 0, [];
    }

    method Clean()
      requires Valid()
      modifies this
      ensures Valid() && State() == Reset() && received == old(received)
    {
      EightDigits(0);
      mode, frameBitCount, shiftReg, prevNrzi := Hunt, 0, 0, false;
    }

    /** One NRZI level into the detector. */
    method Feed(level: bool)
      requires Valid()
      modifies this, frameBits
      ensures Valid()
      ensures var f := FeedLevel(old(State()), level);
              State() == f.dec && received == old(received) + f.events
    {
      var bit := Shift(level);
      match mode {
        case Hunt => HuntBit();
        case Sync => SyncBit(bit);
        case InFrame => FrameBit(bit);
      }
    }

    method HuntBit()
      requires Valid() && mode == Hunt
      modifies this`mode, this`frameBitCount
      ensures Valid() && State() == HuntStep(old(State()))
    {
      var flag := AtFlag();
      if flag {
        mode, frameBitCount := Sync, 0;
      }
    }

    method SyncBit(bit: bool)
      requires Valid() && mode == Sync
      modifies this`mode, this`frameBitCount, frameBits
      ensures Valid() && State() == SyncStep(old(State()), bit)
    {
      var flag := AtFlag();
      if flag {
        frameBitCount := 0;
      } else {
        mode := InFrame;
        frameBits[0] := bit;
        frameBitCount := 1;
      }
    }

    method FrameBit(bit: bool)
      requires Valid() && mode == InFrame
      modifies this`mode, this`frameBitCount, this`framesDecoded, this`received, frameBits
      ensures Valid()
      ensures var f := FrameStep(old(State()), bit);
              State() == f.dec && received == old(received) + f.events
    {
      var flag := AtFlag();
      if flag {
        CloseFrame();
      } else {
        Gather(bit);
      }
    }

    /** Decodes one level and shifts its bit into the register. */
    method Shift(level: bool) returns (bit: bool)
      modifies this`shiftReg, this`prevNrzi
      ensures bit == (level == old(prevNrzi)) && prevNrzi == level
      ensures OctetBits(shiftReg) == old(OctetBits(shiftReg))[1..] + [bit]
    {
      bit := level == prevNrzi;
      prevNrzi := level;
      ShiftRegister(shiftReg, bit);
      shiftReg := (shiftReg >> 1) | (if bit then 0x80 else 0);
    }

    method AtFlag() returns (flag: bool)
      ensures flag <==> OctetBits(shiftReg) == Flag()
    {
      FlagRegister(shiftReg);
      flag := shiftReg == 0x7E;
    }

    /** A closing flag: the seven bits of it already gathered are dropped and the rest is taken for a frame. */
    method CloseFrame()
      requires Valid()
      modifies this`mode, this`frameBitCount, this`framesDecoded, this`received
      ensures Valid() && mode == Sync && frameBitCount == 0
      ensures received == old(received) + Event(FrameOf(Destuff(WithoutFlag(old(frameBits[..frameBitCount])), 0)))
    {
      var count := frameBitCount;
      if count >= 7 {
        count := count - 7;
      }
      ghost var bits := frameBits[..frameBitCount];
      assert frameBits[..count] == WithoutFlag(bits);
      var destuffed := new bool[MAX_FRAME_BITS];
      var dlen := BitDestuff(frameBits[..count], destuffed);
      var found, frame := CheckFrame(destuffed[..dlen]);
      if found {
        received := received + [frame];
        framesDecoded := framesDecoded + 1;
      }
      mode, frameBitCount := Sync, 0;
    }

    /** One more bit of a frame, unless the frame overflows or seven ones in a row end it. */
    method Gather(bit: bool)
      requires Valid() && mode == InFrame
      modifies this`mode, this`frameBitCount, frameBits
      ensures Valid()
      ensures var bits := old(frameBits[..frameBitCount]);
              if Aborts(OctetBits(shiftReg)) || |bits| >= MAX_FRAME_BITS then mode == Hunt && frameBitCount == 0
              else mode == InFrame && frameBits[..frameBitCount] == bits + [bit]
    {
      if frameBitCount < MAX_FRAME_BITS {
        frameBits[frameBitCount] := bit;
        frameBitCount := frameBitCount + 1;
      } else {
        mode, frameBitCount := Hunt, 0;
      }
      var ones := LeadingOnes(shiftReg);
      if ones >= 7 {
        mode, frameBitCount := Hunt, 0;
      }
    }
  }

  /** The tests a destuffed run must pass to be delivered: its length, and the checksum over all but the last two octets. */
  method CheckFrame(bits: seq<bool>) returns (found: bool, frame: seq<octet>)
    ensures FrameOf(bits) == if found then Some(frame) else None
  {
    hide FrameOf;
    frame := [];
    var n := |bits| / 8;
    WrongLength(bits);
    if |bits| < 16 * 8 {
      return false, [];
    }
    if n < 18 || n > MAX_FRAME_BYTES {
      return false, [];
    }
    var octets := PackAll(bits[..8 * n]);
    var rx := (octets[n - 2] as bv16) | ((octets[n - 1] as bv16) << 8);
    var fcs := ComputeFcs(octets[..n - 2]);
    Verdict(bits, octets[..n - 2], octets[n - 2], octets[n - 1], rx, fcs);
    return rx == fcs, octets[..n - 2];
  }

  lemma WrongLength(bits: seq<bool>)
    ensures |bits| / 8 < 18 || |bits| / 8 > MAX_FRAME_BYTES ==> FrameOf(bits) == None
  {
  }

  lemma Verdict(bits: seq<bool>, head: seq<octet>, lo: octet, hi: octet, rx: bv16, fcs: bv16)
    requires 18 <= |bits| / 8 <= MAX_FRAME_BYTES && head + [lo, hi] == Octets(bits[..8 * (|bits| / 8)])
    requires rx == (lo as bv16) | ((hi as bv16) << 8) && WordBits(fcs) == CheckBits(Bits(head))
    ensures FrameOf(bits) == if rx == fcs then Some(head) else None
  {
    hide Accepts, CheckBits, Bits, Octets, WordBits, OctetBits;
    var w := bits[..8 * (|bits| / 8)];
    CheckedWord(w, head, lo, hi, fcs);
    RxWord(lo, hi, rx, fcs);
    OctetsOfBits(head);
  }

  method PackAll(bits: seq<bool>) returns (octets: seq<octet>)
    requires |bits| % 8 == 0
    ensures octets == Octets(bits)
  {
    octets := [];
    assert bits[0..] == bits;
    for i := 0 to |bits| / 8
      invariant |octets| == i && octets + Octets(bits[8 * i..]) == Octets(bits)
    {
      assert bits[8 * i..][..8] == bits[8 * i..8 * i + 8] && bits[8 * i..][8..] == bits[8 * i + 8..];
      octets := octets + [Pack(bits[8 * i..8 * i + 8])];
    }
    assert bits[8 * (|bits| / 8)..] == [] && octets + [] == octets;
  }

  /** Comparing the two check words is comparing the check bits. */
  lemma CheckedWord(w: seq<bool>, head: seq<octet>, lo: octet, hi: octet, fcs: bv16)
    requires |w| % 8 == 0 && |w| >= 16 && head + [lo, hi] == Octets(w) && WordBits(fcs) == CheckBits(Bits(head))
    ensures Accepts(w) <==> OctetBits(lo) + OctetBits(hi) == WordBits(fcs)
    ensures w[..|w| - 16] == Bits(head)
  {
    BitsOfOctets(w);
    WithCheck(head, lo, hi);
    Split(w, Bits(head), OctetBits(lo) + OctetBits(hi));
  }

  lemma Split(w: seq<bool>, message: seq<bool>, check: seq<bool>)
    requires w == message + check && |check| == 16
    ensures w[..|w| - 16] == message && w[|w| - 16..] == check
  {
  }

  lemma RxWord(lo: octet, hi: octet, rx: bv16, fcs: bv16)
    requires rx == (lo as bv16) | ((hi as bv16) << 8)
    ensures rx == fcs <==> OctetBits(lo) + OctetBits(hi) == WordBits(fcs)
  {
    WordJoin(lo, hi);
    SameWord((lo as bv16) | ((hi as bv16) << 8), fcs);
  }

  lemma SameWord(x: bv16, y: bv16)
    ensures WordBits(x) == WordBits(y) <==> x == y
  {
    RightAll(x);
    RightAll(y);
    if WordBits(x) == WordBits(y) {
      DigitsInjective(x, y, 16);
    }
  }
}
