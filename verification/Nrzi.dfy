/** Bit stuffing, flags, NRZI and the transmit pipeline of nrzi.c. */
module Nrzi {
  import opened BitWords
  import opened Sequences
  import opened Fcs

  const MAX_FRAME_BYTES := 330
  const MAX_BITS := 4096
  const PREAMBLE_FLAGS := 80
  const CLOSING_FLAGS := 3

  // ---- Bit stuffing ----

  /** A zero after every fifth one in a row; ones is the length of the run so far. */
  function Stuff(bits: seq<bool>, ones: nat): seq<bool>
    decreases |bits|
  {
    if bits == [] then []
    else if !bits[0] then [false] + Stuff(bits[1..], 0)
    else if ones == 4 then [true, false] + Stuff(bits[1..], 0)
    else [true] + Stuff(bits[1..], ones + 1)
  }

  /** Drops whatever bit follows five ones in a row. */
  function Destuff(bits: seq<bool>, ones: nat): (r: seq<bool>)
    ensures |r| <= |bits|
    decreases |bits|
  {
    if bits == [] then []
    else if ones == 5 then Destuff(bits[1..], 0)
    else [bits[0]] + Destuff(bits[1..], if bits[0] then ones + 1 else 0)
  }

  lemma {:induction false} DestuffStuff(bits: seq<bool>, ones: nat)
    requires ones < 5
    ensures Destuff(Stuff(bits, ones), ones) == bits
    decreases |bits|
  {
    var s := Stuff(bits, ones);
    if bits != [] {
      var rest := Stuff(bits[1..], if !bits[0] || ones == 4 then 0 else ones + 1);
      DestuffStuff(bits[1..], if !bits[0] || ones == 4 then 0 else ones + 1);
      if bits[0] && ones == 4 {
        assert s[1..] == [false] + rest && s[1..][1..] == rest;
      } else {
        assert s[1..] == rest;
      }
    }
  }

  /** At most five ones in a row, counting from a run of k. */
  predicate Calm(bits: seq<bool>, k: nat)
    decreases |bits|
  {
    k <= 5 && (bits == [] || Calm(bits[1..], if bits[0] then k + 1 else 0))
  }

  /** The run of ones at the end. */
  function EndRun(bits: seq<bool>, k: nat): nat
    decreases |bits|
  {
    if bits == [] then k else EndRun(bits[1..], if bits[0] then k + 1 else 0)
  }

  /** Stuffed bits never hold six ones in a row, end in fewer than five, and are at most a fifth longer. */
  lemma {:induction false} StuffShape(bits: seq<bool>, ones: nat)
    requires ones < 5
    ensures var s := Stuff(bits, ones); Calm(s, ones) && EndRun(s, ones) < 5 && |bits| <= |s| && 5 * |s| <= 6 * |bits| + ones
    decreases |bits|
  {
    var s := Stuff(bits, ones);
    if bits != [] {
      var rest := Stuff(bits[1..], if !bits[0] || ones == 4 then 0 else ones + 1);
      StuffShape(bits[1..], if !bits[0] || ones == 4 then 0 else ones + 1);
      if bits[0] && ones == 4 {
        assert s[1..] == [false] + rest && s[1..][1..] == rest;
      } else {
        assert s[1..] == rest;
      }
    }
  }

  lemma {:induction false} RunOfOnes(bits: seq<bool>, k: nat, n: nat)
    requires Calm(bits, k) && n <= |bits| && forall j :: 0 <= j < n ==> bits[j]
    ensures k + n <= 5
    decreases n
  {
    if n > 0 {
      RunOfOnes(bits[1..], k + 1, n - 1);
    }
  }

  lemma {:induction false} CalmFrom(bits: seq<bool>, k: nat, i: nat)
    requires Calm(bits, k) && i <= |bits|
    ensures exists m :: Calm(bits[i..], m)
    decreases i
  {
    if i > 0 {
      CalmFrom(bits[1..], if bits[0] then k + 1 else 0, i - 1);
      assert bits[1..][i - 1..] == bits[i..];
    } else {
      assert bits[0..] == bits;
    }
  }

  /** Among any six consecutive bits of a stuffed run there is a zero, so no flag can appear inside it. */
  lemma NoSixOnes(bits: seq<bool>, i: nat)
    requires i + 6 <= |Stuff(bits, 0)|
    ensures exists j :: i <= j < i + 6 && !Stuff(bits, 0)[j]
  {
    var s := Stuff(bits, 0);
    StuffShape(bits, 0);
    CalmFrom(s, 0, i);
    var m :| Calm(s[i..], m);
    if forall j :: i <= j < i + 6 ==> s[j] {
      RunOfOnes(s[i..], m, 6);
    }
  }

  method BitStuff(bits: seq<bool>, out: array<bool>) returns (n: int)
    modifies out
    ensures n == if |Stuff(bits, 0)| <= out.Length then |Stuff(bits, 0)| else -1
    ensures n >= 0 ==> out[..n] == Stuff(bits, 0)
  {
    var idx: nat, ones: nat := 0, 0;
    assert bits[0..] == bits && out[..0] + Stuff(bits, 0) == Stuff(bits, 0);
    for i := 0 to |bits|
      invariant idx <= out.Length && ones < 5
      invariant out[..idx] + Stuff(bits[i..], ones) == Stuff(bits, 0)
    {
      ghost var head, todo := out[..idx], Stuff(bits[i..], ones);
      StuffNext(head, bits, i, ones);
      if idx >= out.Length {
        return -1;
      }
      out[idx] := bits[i];
      idx := idx + 1;
      assert out[..idx] == head + [bits[i]];
      if bits[i] {
        ones := ones + 1;
        if ones == 5 {
          if idx >= out.Length {
            return -1;
          }
          out[idx] := false;
          idx := idx + 1;
          ones := 0;
          assert out[..idx] == head + [bits[i], false];
        }
      } else {
        ones := 0;
      }
    }
    assert bits[|bits|..] == [] && out[..idx] + [] == out[..idx];
    n := idx;
  }

  lemma StuffNext(head: seq<bool>, bits: seq<bool>, i: nat, ones: nat)
    requires i < |bits| && ones < 5
    ensures var five := bits[i] && ones == 4;
            var put := if five then [bits[i], false] else [bits[i]];
            var run := if !bits[i] || five then 0 else ones + 1;
            head + Stuff(bits[i..], ones) == head + put + Stuff(bits[i + 1..], run)
  {
    assert bits[i..][1..] == bits[i + 1..];
    var five := bits[i] && ones == 4;
    Assoc(head, if five then [bits[i], false] else [bits[i]],
          Stuff(bits[i + 1..], if !bits[i] || five then 0 else ones + 1));
  }

  method BitDestuff(bits: seq<bool>, out: array<bool>) returns (n: int)
    modifies out
    ensures n == if |Destuff(bits, 0)| <= out.Length then |Destuff(bits, 0)| else -1
    ensures n >= 0 ==> out[..n] == Destuff(bits, 0)
  {
    var idx: nat, ones: nat, skipNext := 0, 0, false;
    assert bits[0..] == bits && out[..0] + Destuff(bits, 0) == Destuff(bits, 0);
    for i := 0 to |bits|
      invariant idx <= out.Length && (skipNext <==> ones == 5)
      invariant out[..idx] + Destuff(bits[i..], ones) == Destuff(bits, 0)
    {
      ghost var head := out[..idx];
      DestuffNext(head, bits, i, ones);
      if skipNext {
        skipNext, ones := false, 0;
        continue;
      }
      if idx >= out.Length {
        return -1;
      }
      out[idx] := bits[i];
      idx := idx + 1;
      assert out[..idx] == head + [bits[i]];
      if bits[i] {
        ones := ones + 1;
        if ones == 5 {
          skipNext := true;
        }
      } else {
        ones := 0;
      }
    }
    assert bits[|bits|..] == [] && out[..idx] + [] == out[..idx];
    n := idx;
  }

  lemma DestuffNext(head: seq<bool>, bits: seq<bool>, i: nat, ones: nat)
    requires i < |bits|
    ensures head + Destuff(bits[i..], ones)
         == if ones == 5 then head + Destuff(bits[i + 1..], 0)
            else head + [bits[i]] + Destuff(bits[i + 1..], if bits[i] then ones + 1 else 0)
  {
    assert bits[i..][1..] == bits[i + 1..];
    Assoc(head, [bits[i]], Destuff(bits[i + 1..], if bits[i] then ones + 1 else 0));
  }

  // ---- NRZI ----

  /** A zero toggles the level, a one holds it. */
  function Levels(bits: seq<bool>, level: bool): (r: seq<bool>)
    ensures |r| == |bits|
    decreases |bits|
  {
    if bits == [] then [] else
      var l := if bits[0] then level else !level;
      [l] + Levels(bits[1..], l)
  }

  /** A held level is a one, a changed level a zero. */
  function Data(levels: seq<bool>, prev: bool): (r: seq<bool>)
    ensures |r| == |levels|
    decreases |levels|
  {
    if levels == [] then [] else [levels[0] == prev] + Data(levels[1..], levels[0])
  }

  lemma {:induction false} NrziRoundTrip(bits: seq<bool>, level: bool)
    ensures Data(Levels(bits, level), level) == bits
    decreases |bits|
  {
    if bits != [] {
      var l := if bits[0] then level else !level;
      NrziRoundTrip(bits[1..], l);
      assert Levels(bits, level)[1..] == Levels(bits[1..], l);
    }
  }

  /** Whatever level a receiver starts from, inverted or not, only the first bit can come out wrong. */
  lemma NrziAnyStart(bits: seq<bool>, level: bool, prev: bool)
    requires bits != []
    ensures Data(Levels(bits, level), prev)[1..] == bits[1..]
    ensures Data(Levels(bits, level), prev)[0] == (bits[0] == (level == prev))
  {
    var l := if bits[0] then level else !level;
    NrziRoundTrip(bits[1..], l);
    assert Levels(bits, level)[1..] == Levels(bits[1..], l);
  }

  method NrziEncode(bits: seq<bool>, out: array<bool>, initial: bool) returns (n: nat)
    modifies out
    ensures n == if |bits| <= out.Length then |bits| else 0
    ensures |bits| <= out.Length ==> out[..n] == Levels(bits, initial)
  {
    if |bits| > out.Length {
      return 0;
    }
    var state := initial;
    assert bits[0..] == bits && out[..0] + Levels(bits, state) == Levels(bits, initial);
    for i := 0 to |bits|
      invariant out[..i] + Levels(bits[i..], state) == Levels(bits, initial)
    {
      assert bits[i..][1..] == bits[i + 1..];
      ghost var head := out[..i];
      if !bits[i] {
        state := !state;
      }
      out[i] := state;
      assert out[..i + 1] == head + [state];
      Assoc(head, [state], Levels(bits[i + 1..], state));
    }
    assert bits[|bits|..] == [] && out[..|bits|] + [] == out[..|bits|];
    n := |bits|;
  }

  method NrziDecode(levels: seq<bool>, out: array<bool>, initial: bool) returns (n: nat)
    modifies out
    ensures n == if |levels| <= out.Length then |levels| else 0
    ensures |levels| <= out.Length ==> out[..n] == Data(levels, initial)
  {
    if |levels| > out.Length {
      return 0;
    }
    var prev := initial;
    assert levels[0..] == levels && out[..0] + Data(levels, prev) == Data(levels, initial);
    for i := 0 to |levels|
      invariant out[..i] + Data(levels[i..], prev) == Data(levels, initial)
    {
      assert levels[i..][1..] == levels[i + 1..];
      ghost var head, bit := out[..i], levels[i] == prev;
      out[i] := levels[i] == prev;
      prev := levels[i];
      assert out[..i + 1] == head + [bit];
      Assoc(head, [bit], Data(levels[i + 1..], prev));
    }
    assert levels[|levels|..] == [] && out[..|levels|] + [] == out[..|levels|];
    n := |levels|;
  }

  // ---- Frames ----

  /** Bits of every octet, least significant first; nothing when they do not all fit. */
  method BytesToBits(data: seq<octet>, out: array<bool>) returns (n: nat)
    modifies out
    ensures n == if 8 * |data| <= out.Length then 8 * |data| else 0
    ensures 8 * |data| <= out.Length ==> out[..n] == Bits(data)
  {
    if 8 * |data| > out.Length {
      return 0;
    }
    assert data[0..] == data && out[..0] + Bits(data) == Bits(data);
    for i := 0 to |data|
      invariant out[..8 * i] + Bits(data[i..]) == Bits(data)
    {
      assert data[i..][1..] == data[i + 1..];
      ghost var head := out[..8 * i];
      PutOctet(data[i], out, 8 * i);
      Assoc(head, OctetBits(data[i]), Bits(data[i + 1..]));
    }
    assert data[|data|..] == [] && out[..8 * |data|] + [] == out[..8 * |data|];
    n := 8 * |data|;
  }

  method PutOctet(b: octet, out: array<bool>, pos: nat)
    requires pos + 8 <= out.Length
    modifies out
    ensures out[..pos + 8] == old(out[..pos]) + OctetBits(b)
  {
    ghost var head := out[..pos];
    assert head + OctetBits(b)[..0] == head;
    for j := 0 to 8
      invariant out[..pos + j] == head + OctetBits(b)[..j]
    {
      out[pos + j] := BitAt(b, j);
    }
  }

  /** 0x7E, least significant bit first. */
  function Flag(): (r: seq<bool>)
    ensures |r| == 8
  {
    [false, true, true, true, true, true, true, false]
  }

  function Times(u: seq<bool>, n: nat): seq<bool> {
    if n == 0 then [] else u + Times(u, n - 1)
  }

  function Flags(n: nat): (r: seq<bool>)
    ensures |r| == 8 * n
  {
    FlagsLength(n);
    Times(Flag(), n)
  }

  lemma {:induction false} FlagsLength(n: nat)
    ensures |Times(Flag(), n)| == 8 * n
  {
    if n > 0 {
      FlagsLength(n - 1);
    }
  }

  /** The reserved bits of an SSID octet set. */
  function FixOctet(b: octet): octet {
    (b & 0x1F) | 0xE0
  }

  function FixSsids(frame: seq<octet>): (r: seq<octet>)
    requires |frame| >= 14
    ensures |r| == |frame|
  {
    frame[6 := FixOctet(frame[6])][13 := FixOctet(frame[13])]
  }

  /** The bits of a frame and of its checksum. */
  function Content(frame: seq<octet>): (r: seq<bool>)
    requires |frame| >= 14
    ensures |r| == 8 * |frame| + 16
  {
    Bits(FixSsids(frame)) + CheckBits(Bits(FixSsids(frame)))
  }

  predicate Sendable(frame: seq<octet>) {
    16 <= |frame| <= MAX_FRAME_BYTES - 2
  }

  function Bitstream(frame: seq<octet>): seq<bool>
    requires Sendable(frame)
  {
    Flags(PREAMBLE_FLAGS) + Stuff(Content(frame), 0) + Flags(CLOSING_FLAGS)
  }

  /** Every frame the transmitter accepts fits the arrays it is built in, with room to spare. */
  lemma BitstreamFits(frame: seq<octet>)
    requires Sendable(frame)
    ensures |Content(frame)| <= 8 * MAX_FRAME_BYTES && |Stuff(Content(frame), 0)| + 8 <= MAX_BITS
    ensures |Bitstream(frame)| <= 3832 < MAX_BITS
  {
    StuffShape(Content(frame), 0);
  }

  /** The whole pipeline: SSID fix, checksum, bits, stuffing and flags. */
  method FrameToBitstream(frame: seq<octet>, out: array<bool>) returns (n: int)
    modifies out
    ensures n == if Sendable(frame) && |Bitstream(frame)| <= out.Length then |Bitstream(frame)| else -1
    ensures n >= 0 ==> out[..n] == Bitstream(frame)
    ensures Sendable(frame) && out.Length >= MAX_BITS ==> n > 0
  {
    if |frame| < 16 || |frame| > MAX_FRAME_BYTES - 2 {
      return -1;
    }
    BitstreamFits(frame);
    var fixed := frame[6 := (frame[6] & 0x1F) | 0xE0];
    fixed := fixed[13 := (fixed[13] & 0x1F) | 0xE0];
    var stuffed, length := StuffedContent(frame, fixed);
    if 8 * PREAMBLE_FLAGS + length + 8 * CLOSING_FLAGS > out.Length {
      return -1;
    }
    PutFlags(PREAMBLE_FLAGS, out, 0);
    assert out[..8 * PREAMBLE_FLAGS] == Flags(PREAMBLE_FLAGS);
    PutBits(stuffed[..length], out, 8 * PREAMBLE_FLAGS);
    PutFlags(CLOSING_FLAGS, out, 8 * PREAMBLE_FLAGS + length);
    n := 8 * PREAMBLE_FLAGS + length + 8 * CLOSING_FLAGS;
  }

  /** The frame with its checksum as stuffed bits. */
  method StuffedContent(frame: seq<octet>, fixed: seq<octet>) returns (stuffed: array<bool>, length: nat)
    requires Sendable(frame) && fixed == FixSsids(frame)
    ensures fresh(stuffed) && length <= stuffed.Length
    ensures stuffed[..length] == Stuff(Content(frame), 0)
  {
    BitstreamFits(frame);
    var fcs := ComputeFcs(fixed);
    var lo, hi := (fcs & 0xFF) as bv8, ((fcs >> 8) & 0xFF) as bv8;
    WordHalves(fcs);
    WithCheck(fixed, lo, hi);
    var raw := new bool[MAX_FRAME_BYTES * 8];
    var count := BytesToBits(fixed + [lo, hi], raw);
    stuffed := new bool[MAX_BITS];
    var k := BitStuff(raw[..count], stuffed);
    length := k;
  }

  lemma WithCheck(fixed: seq<octet>, lo: octet, hi: octet)
    ensures Bits(fixed + [lo, hi]) == Bits(fixed) + (OctetBits(lo) + OctetBits(hi))
  {
    BitsAppend(fixed, [lo, hi]);
    assert [lo, hi][1..] == [hi] && [hi][1..] == [];
    assert Bits([hi]) == OctetBits(hi) + [];
  }

  method PutFlags(count: nat, out: array<bool>, pos: nat)
    requires pos + 8 * count <= out.Length
    modifies out
    ensures out[..pos + 8 * count] == old(out[..pos]) + Flags(count)
  {
    ghost var head := out[..pos];
    assert out[..pos] + Flags(count) == head + Flags(count);
    for f := 0 to count
      invariant out[..pos + 8 * f] + Flags(count - f) == head + Flags(count)
    {
      ghost var done := out[..pos + 8 * f];
      PutBits(Flag(), out, pos + 8 * f);
      Assoc(done, Flag(), Flags(count - f - 1));
    }
    assert out[..pos + 8 * count] + [] == out[..pos + 8 * count];
  }

  method PutBits(bits: seq<bool>, out: array<bool>, pos: nat)
    requires pos + |bits| <= out.Length
    modifies out
    ensures out[..pos + |bits|] == old(out[..pos]) + bits
  {
    forall b | 0 <= b < |bits| {
      out[pos + b] := bits[b];
    }
  }
}
