/** The bundle encoder and decoder of bp.c as cursors over buffers, proved against the format. */
module BundleCodec {
  import opened Bytes
  import opened Cbor
  import opened Bundle
  import opened Sequences
  import Crc16

  // ---- Encoders ----

  /** A run of cbor_encode_uint calls, -1 as soon as one does not fit. */
  method PutTwo(a: u64, b: u64, out: array<byte>, pos: nat) returns (n: int)
    requires pos <= out.Length
    modifies out
    ensures n == if pos + |Uint(a) + Uint(b)| <= out.Length then |Uint(a) + Uint(b)| else -1
    ensures n >= 0 ==> out[..pos + n] == old(out[..pos]) + (Uint(a) + Uint(b))
  {
    ghost var before := out[..pos];
    n := PutUint(a, out, pos);
    if n < 0 {
      return;
    }
    var k := PutUint(b, out, pos + n);
    if k < 0 {
      return -1;
    }
    Assoc(before, Uint(a), Uint(b));
    n := n + k;
  }

  method PutEid(uri: Uri, out: array<byte>, pos: nat) returns (n: int)
    requires pos <= out.Length
    modifies out
    ensures n == if pos + |EidBytes(uri)| <= out.Length then |EidBytes(uri)| else -1
    ensures n >= 0 ==> out[..pos + n] == old(out[..pos]) + EidBytes(uri)
  {
    ghost var before := out[..pos];
    var ssp: Uri := uri;
    if |ssp| >= 4 && ssp[..4] == DTN {
      ssp := ssp[4..];
    }
    n := PutArray(2, out, pos);
    if n < 0 {
      return;
    }
    var k := PutUint(1, out, pos + n);
    if k < 0 {
      return -1;
    }
    n := n + k;
    k := PutText(TSTR, ssp, out, pos + n);
    if k < 0 {
      return -1;
    }
    n := n + k;
    Join3(before, Head(ARRAY, 2), Uint(1), Text(TSTR, ssp));
  }

  lemma Join3(before: seq<byte>, a: seq<byte>, b: seq<byte>, c: seq<byte>)
    ensures before + a + b + c == before + (a + b + c)
  {
  }

  method PutOpening(flags: u64, out: array<byte>, pos: nat) returns (n: int)
    requires pos <= out.Length
    modifies out
    ensures n == if pos + |Opening(flags)| <= out.Length then |Opening(flags)| else -1
    ensures n >= 0 ==> out[..pos + n] == old(out[..pos]) + Opening(flags)
  {
    ghost var before := out[..pos];
    var count: u64 := if flags % 2 == 1 then 11 else 9;
    n := PutArray(count, out, pos);
    if n < 0 {
      return;
    }
    var k := PutTwo(VERSION, flags, out, pos + n);
    if k < 0 {
      return -1;
    }
    n := n + k;
    k := PutUint(1, out, pos + n);
    if k < 0 {
      return -1;
    }
    n := n + k;
    Join3(before, Head(ARRAY, count), Uint(VERSION) + Uint(flags), Uint(1));
    Assoc(Head(ARRAY, count), Uint(VERSION), Uint(flags));
  }

  method PutEids(src: Uri, dst: Uri, out: array<byte>, pos: nat) returns (n: int)
    requires pos <= out.Length
    modifies out
    ensures n == if pos + |Eids(src, dst)| <= out.Length then |Eids(src, dst)| else -1
    ensures n >= 0 ==> out[..pos + n] == old(out[..pos]) + Eids(src, dst)
  {
    hide EidBytes;
    ghost var before := out[..pos];
    n := PutTwoEids(dst, src, out, pos);
    if n < 0 {
      return;
    }
    var k := PutEid(src, out, pos + n);
    if k < 0 {
      return -1;
    }
    Assoc(before, EidBytes(dst) + EidBytes(src), EidBytes(src));
    n := n + k;
  }

  method PutTwoEids(a: Uri, b: Uri, out: array<byte>, pos: nat) returns (n: int)
    requires pos <= out.Length
    modifies out
    ensures n == if pos + |EidBytes(a) + EidBytes(b)| <= out.Length then |EidBytes(a) + EidBytes(b)| else -1
    ensures n >= 0 ==> out[..pos + n] == old(out[..pos]) + (EidBytes(a) + EidBytes(b))
  {
    hide Opening, Eids, EidBytes, Times, FragmentFields;
    ghost var before := out[..pos];
    n := PutEid(a, out, pos);
    if n < 0 {
      return;
    }
    var k := PutEid(b, out, pos + n);
    if k < 0 {
      return -1;
    }
    Assoc(before, EidBytes(a), EidBytes(b));
    n := n + k;
  }

  method PutTimes(time: u64, sequence: u64, lifetime: u64, out: array<byte>, pos: nat) returns (n: int)
    requires pos <= out.Length
    modifies out
    ensures n == if pos + |Times(time, sequence, lifetime)| <= out.Length then |Times(time, sequence, lifetime)| else -1
    ensures n >= 0 ==> out[..pos + n] == old(out[..pos]) + Times(time, sequence, lifetime)
  {
    hide Head, Text, Uint;
    ghost var before := out[..pos];
    n := PutArray(2, out, pos);
    if n < 0 {
      return;
    }
    var k := PutTwo(time, sequence, out, pos + n);
    if k < 0 {
      return -1;
    }
    n := n + k;
    k := PutUint(lifetime, out, pos + n);
    if k < 0 {
      return -1;
    }
    n := n + k;
    Join3(before, Head(ARRAY, 2), Uint(time) + Uint(sequence), Uint(lifetime));
    Assoc(Head(ARRAY, 2), Uint(time), Uint(sequence));
  }

  method PutFragmentFields(flags: u64, offset: u64, total: u64, out: array<byte>, pos: nat) returns (n: int)
    requires pos <= out.Length
    modifies out
    ensures var f := FragmentFields(flags, offset, total); n == if pos + |f| <= out.Length then |f| else -1
    ensures n >= 0 ==> out[..pos + n] == old(out[..pos]) + FragmentFields(flags, offset, total)
  {
    n := 0;
    assert out[..pos] + [] == out[..pos];
    if flags % 2 == 1 {
      n := PutTwo(offset, total, out, pos);
    }
  }

  method PutOpeningAndEids(p: Primary, out: array<byte>, pos: nat) returns (n: int)
    requires pos <= out.Length
    modifies out
    ensures var f := Opening(p.flags) + Eids(p.src, p.dst); n == if pos + |f| <= out.Length then |f| else -1
    ensures n >= 0 ==> out[..pos + n] == old(out[..pos]) + (Opening(p.flags) + Eids(p.src, p.dst))
  {
    hide Opening, Eids, EidBytes, Times, FragmentFields;
    ghost var before := out[..pos];
    n := PutOpening(p.flags, out, pos);
    if n < 0 {
      return;
    }
    var k := PutEids(p.src, p.dst, out, pos + n);
    if k < 0 {
      return -1;
    }
    Assoc(before, Opening(p.flags), Eids(p.src, p.dst));
    n := n + k;
  }

  method PutTimesAndFragment(p: Primary, out: array<byte>, pos: nat) returns (n: int)
    requires pos <= out.Length
    modifies out
    ensures var f := TimesAndFragment(p); n == if pos + |f| <= out.Length then |f| else -1
    ensures n >= 0 ==> out[..pos + n] == old(out[..pos]) + TimesAndFragment(p)
  {
    hide Opening, Eids, EidBytes, Times, FragmentFields;
    ghost var before := out[..pos];
    n := PutTimes(p.time, p.sequence, p.lifetime, out, pos);
    if n < 0 {
      return;
    }
    var k := PutFragmentFields(p.flags, p.fragmentOffset, p.totalAdu, out, pos + n);
    if k < 0 {
      return -1;
    }
    Assoc(before, Times(p.time, p.sequence, p.lifetime), FragmentFields(p.flags, p.fragmentOffset, p.totalAdu));
    n := n + k;
  }

  function TimesAndFragment(p: Primary): seq<byte> {
    Times(p.time, p.sequence, p.lifetime) + FragmentFields(p.flags, p.fragmentOffset, p.totalAdu)
  }

  /** Everything before the CRC. */
  method PutFields(p: Primary, out: array<byte>, pos: nat) returns (n: int)
    requires pos <= out.Length
    modifies out
    ensures n == if pos + |PrimaryFields(p)| <= out.Length then |PrimaryFields(p)| else -1
    ensures n >= 0 ==> out[..pos + n] == old(out[..pos]) + PrimaryFields(p)
  {
    hide *;
    ghost var before := out[..pos];
    n := PutOpeningAndEids(p, out, pos);
    FieldsParts(p, before);
    if n < 0 {
      return;
    }
    var k := PutTimesAndFragment(p, out, pos + n);
    if k < 0 {
      return -1;
    }
    n := n + k;
  }

  lemma FieldsParts(p: Primary, before: seq<byte>)
    ensures |PrimaryFields(p)| == |Opening(p.flags) + Eids(p.src, p.dst)| + |TimesAndFragment(p)|
    ensures before + (Opening(p.flags) + Eids(p.src, p.dst)) + TimesAndFragment(p) == before + PrimaryFields(p)
  {
    Regroup(before, Opening(p.flags) + Eids(p.src, p.dst), Times(p.time, p.sequence, p.lifetime),
            FragmentFields(p.flags, p.fragmentOffset, p.totalAdu));
  }

  lemma Regroup(before: seq<byte>, a: seq<byte>, b: seq<byte>, c: seq<byte>)
    ensures before + a + (b + c) == before + (a + b + c) && |a + b + c| == |a| + |b + c|
  {
  }

  /** encode_primary: the CRC is computed over the block with zeros in its place, then patched in. */
  method PutPrimary(p: Primary, out: array<byte>, start: nat) returns (n: int)
    requires start <= out.Length
    modifies out
    ensures n == if start + |PrimaryBytes(p)| <= out.Length then |PrimaryBytes(p)| else -1
    ensures n >= 0 ==> out[..start + n] == old(out[..start]) + PrimaryBytes(p)
  {
    hide *;
    PrimaryLength(p);
    var k := PutFields(p, out, start);
    if k < 0 || start + k + 3 > out.Length {
      return -1;
    }
    PutCrc(out, start, start + k, PrimaryFields(p));
    n := k + 3;
  }

  lemma PrimaryLength(p: Primary)
    ensures |PrimaryBytes(p)| == |PrimaryFields(p)| + 3
    ensures PrimaryBytes(p) == PrimaryFields(p) + CrcField(PrimaryFields(p))
  {
  }

  method PutCrc(out: array<byte>, start: nat, pos: nat, ghost fields: seq<byte>)
    requires start <= pos && pos + 3 <= out.Length && out[start..pos] == fields
    modifies out
    ensures out[..pos + 3] == old(out[..start]) + (fields + CrcField(fields))
  {
    hide Crc16.Octets;
    ghost var before := out[..start];
    assert out[..pos] == before + fields;
    out[pos], out[pos + 1], out[pos + 2] := 0x42, 0, 0;
    assert out[start..pos + 3] == fields + [0x42, 0, 0];
    var hi, lo := Crc16.ComputeOctets(out[start..pos + 3]);
    out[pos + 1], out[pos + 2] := hi, lo;
    assert out[..pos + 3] == before + fields + ([0x42] + Crc16.Octets(fields + [0x42, 0, 0]));
    Assoc(before, fields, CrcField(fields));
  }

  method PutPayloadBlock(payload: seq<byte>, out: array<byte>, pos: nat) returns (n: int)
    requires |payload| < U64_LIMIT && pos <= out.Length
    modifies out
    ensures n == if pos + |PayloadBytes(payload)| <= out.Length then |PayloadBytes(payload)| else -1
    ensures n >= 0 ==> out[..pos + n] == old(out[..pos]) + PayloadBytes(payload)
  {
    hide Head, Text, Uint;
    ghost var before := out[..pos];
    n := PutArray(5, out, pos);
    if n < 0 {
      return;
    }
    var k := PutFour(out, pos + n);
    if k < 0 {
      return -1;
    }
    n := n + k;
    k := PutText(BSTR, payload, out, pos + n);
    if k < 0 {
      return -1;
    }
    n := n + k;
    Join3(before, Head(ARRAY, 5), Uint(1) + Uint(1) + Uint(0) + Uint(0), Text(BSTR, payload));
  }

  /** Type 1, number 1, no flags, no CRC. */
  method PutFour(out: array<byte>, pos: nat) returns (n: int)
    requires pos <= out.Length
    modifies out
    ensures var f := Uint(1) + Uint(1) + Uint(0) + Uint(0); n == if pos + |f| <= out.Length then |f| else -1
    ensures n >= 0 ==> out[..pos + n] == old(out[..pos]) + (Uint(1) + Uint(1) + Uint(0) + Uint(0))
  {
    hide Uint;
    ghost var before := out[..pos];
    n := PutTwo(1, 1, out, pos);
    if n < 0 {
      return;
    }
    var k := PutTwo(0, 0, out, pos + n);
    if k < 0 {
      return -1;
    }
    n := n + k;
    Assoc(before, Uint(1) + Uint(1), Uint(0) + Uint(0));
    Assoc(Uint(1) + Uint(1), Uint(0), Uint(0));
  }

  /** bp_encode_bundle and bp_encode_fragment: the array start, the two blocks, the break. */
  method EncodeBundle(p: Primary, payload: seq<byte>, out: array<byte>) returns (n: int)
    requires |payload| < U64_LIMIT
    modifies out
    ensures n == if |Encode(p, payload)| <= out.Length then |Encode(p, payload)| else -1
    ensures n >= 0 ==> out[..n] == Encode(p, payload)
  {
    n := PutBlocks(p, payload, out);
    if n < 0 {
      return;
    }
    var k := PutMark(BREAK, out, n);
    if k < 0 {
      return -1;
    }
    n := n + k;
  }

  method PutBlocks(p: Primary, payload: seq<byte>, out: array<byte>) returns (n: int)
    requires |payload| < U64_LIMIT
    modifies out
    ensures var f := [INDEF_ARRAY] + PrimaryBytes(p) + PayloadBytes(payload); n == if |f| <= out.Length then |f| else -1
    ensures n >= 0 ==> out[..n] == [INDEF_ARRAY] + PrimaryBytes(p) + PayloadBytes(payload)
  {
    hide PrimaryBytes, PayloadBytes;
    n := PutMark(INDEF_ARRAY, out, 0);
    if n < 0 {
      return;
    }
    assert out[..1] == [INDEF_ARRAY];
    var k := PutPrimary(p, out, 1);
    if k < 0 {
      return -1;
    }
    n := n + k;
    k := PutPayloadBlock(payload, out, n);
    if k < 0 {
      return -1;
    }
    n := n + k;
  }

  // ---- Decoders: each reads at pos and returns the position after what it read, or -1 ----

  method ReadHead(buf: seq<byte>, pos: nat) returns (next: int, h: HeadOf)
    requires pos <= |buf|
    ensures next <= |buf| && TakeHead(buf[pos..]) == if next < 0 then Bad else Got(h, buf[next..])
  {
    h := HeadOf(0, 0);
    if |buf| - pos < 1 {
      return -1, h;
    }
    var info := buf[pos] % 32;
    var w := if info <= 23 then 0 else if info == 24 then 1 else if info == 25 then 2 else if info == 26 then 4 else 8;
    if info > 27 || |buf| - pos < 1 + w {
      return -1, h;
    }
    ghost var tail := buf[pos..];
    assert tail[1..1 + w] == buf[pos + 1..pos + 1 + w] && tail[1 + w..] == buf[pos + 1 + w..];
    if w == 0 {
      return pos + 1, HeadOf(buf[pos] / 32, info);
    }
    BigEndianBound(buf[pos + 1..pos + 1 + w]);
    return pos + 1 + w, HeadOf(buf[pos] / 32, FromBigEndian(buf[pos + 1..pos + 1 + w]));
  }

  method ReadNumber(buf: seq<byte>, pos: nat, major: nat) returns (next: int, v: u64)
    requires pos <= |buf|
    ensures next <= |buf| && TakeNumber(buf[pos..], major) == if next < 0 then Bad else Got(v, buf[next..])
  {
    var n, h := ReadHead(buf, pos);
    if n < 0 || h.major != major {
      return -1, 0;
    }
    return n, h.arg;
  }

  method ReadUint(buf: seq<byte>, pos: nat) returns (next: int, v: u64)
    requires pos <= |buf|
    ensures next <= |buf| && TakeUint(buf[pos..]) == if next < 0 then Bad else Got(v, buf[next..])
  {
    next, v := ReadNumber(buf, pos, UINT);
  }

  method ReadText(buf: seq<byte>, pos: nat, major: nat) returns (next: int, s: seq<byte>)
    requires pos <= |buf|
    ensures next <= |buf| && TakeText(buf[pos..], major) == if next < 0 then Bad else Got(s, buf[next..])
  {
    hide TakeNumber;
    var n, length := ReadNumber(buf, pos, major);
    if n < 0 || n + length > |buf| {
      return -1, [];
    }
    ghost var tail := buf[n..];
    assert tail[..length] == buf[n..n + length] && tail[length..] == buf[n + length..];
    return n + length, buf[n..n + length];
  }

  method ReadEid(buf: seq<byte>, pos: nat) returns (next: int, uri: Uri)
    requires pos <= |buf|
    ensures next <= |buf| && TakeEid(buf[pos..]) == if next < 0 then Bad else Got(uri, buf[next..])
  {
    hide TakeNumber, TakeText, TakeUint;
    uri := [];
    var n, count := ReadNumber(buf, pos, ARRAY);
    if n < 0 || count != 2 {
      return -1, uri;
    }
    var k, scheme := ReadUint(buf, n);
    if k < 0 || scheme != 1 {
      return -1, uri;
    }
    var m, ssp := ReadText(buf, k, TSTR);
    if m < 0 || |ssp| + 4 >= MAX_EID_LEN {
      return -1, uri;
    }
    return m, DTN + ssp;
  }

  method ReadOpening(buf: seq<byte>, pos: nat) returns (next: int, flags: u64, crcType: u64)
    requires pos <= |buf|
    ensures next <= |buf| && TakeOpening(buf[pos..]) == if next < 0 then Bad else Got((flags, crcType), buf[next..])
  {
    hide TakeNumber, TakeUint;
    flags, crcType := 0, 0;
    var n, count := ReadNumber(buf, pos, ARRAY);
    if n < 0 {
      return -1, 0, 0;
    }
    var version;
    n, version := ReadUint(buf, n);
    if n < 0 || version != VERSION {
      return -1, 0, 0;
    }
    n, flags := ReadUint(buf, n);
    if n < 0 {
      return -1, 0, 0;
    }
    next, crcType := ReadUint(buf, n);
  }

  method ReadEids(buf: seq<byte>, pos: nat) returns (next: int, dst: Uri, src: Uri, reportTo: Uri)
    requires pos <= |buf|
    ensures next <= |buf| && TakeEids(buf[pos..]) == if next < 0 then Bad else Got((dst, src, reportTo), buf[next..])
  {
    hide TakeEid;
    src, reportTo := [], [];
    next, dst := ReadEid(buf, pos);
    if next < 0 {
      return;
    }
    next, src := ReadEid(buf, next);
    if next < 0 {
      return;
    }
    next, reportTo := ReadEid(buf, next);
  }

  method ReadTimes(buf: seq<byte>, pos: nat) returns (next: int, time: u64, sequence: u64, lifetime: u64)
    requires pos <= |buf|
    ensures next <= |buf| && TakeTimes(buf[pos..]) == if next < 0 then Bad else Got((time, sequence, lifetime), buf[next..])
  {
    hide TakeNumber, TakeUint;
    time, sequence, lifetime := 0, 0, 0;
    var count;
    next, count := ReadNumber(buf, pos, ARRAY);
    if next < 0 || count != 2 {
      return -1, 0, 0, 0;
    }
    next, time := ReadUint(buf, next);
    if next < 0 {
      return;
    }
    next, sequence := ReadUint(buf, next);
    if next < 0 {
      return;
    }
    next, lifetime := ReadUint(buf, next);
  }

  method ReadFragmentFields(flags: u64, buf: seq<byte>, pos: nat) returns (next: int, offset: u64, total: u64)
    requires pos <= |buf|
    ensures next <= |buf| && TakeFragmentFields(flags, buf[pos..]) == if next < 0 then Bad else Got((offset, total), buf[next..])
  {
    hide TakeUint;
    next, offset, total := pos, 0, 0;
    if flags % 2 == 1 {
      next, offset := ReadUint(buf, pos);
      if next < 0 {
        return;
      }
      next, total := ReadUint(buf, next);
    }
  }

  method ReadPrimary(buf: seq<byte>, pos: nat) returns (next: int, p: Primary)
    requires pos <= |buf|
    ensures next <= |buf| && TakePrimary(buf[pos..]) == if next < 0 then Bad else Got(p, buf[next..])
  {
    hide TakeOpening, TakeEids, TakeTimes, TakeFragmentFields, TakeText;
    p := Primary(0, [], [], [], 0, 0, 0, 0, 0, 0);
    var n, flags, crcType := ReadOpening(buf, pos);
    if n < 0 {
      return -1, p;
    }
    var dst, src, reportTo;
    n, dst, src, reportTo := ReadEids(buf, n);
    if n < 0 {
      return -1, p;
    }
    var time, sequence, lifetime;
    n, time, sequence, lifetime := ReadTimes(buf, n);
    if n < 0 {
      return -1, p;
    }
    var offset, total;
    n, offset, total := ReadFragmentFields(flags, buf, n);
    if n < 0 {
      return -1, p;
    }
    if crcType == 1 {
      var crc;
      n, crc := ReadText(buf, n, BSTR);
      if n < 0 {
        return -1, p;
      }
    }
    return n, Primary(flags, dst, src, reportTo, time, sequence, lifetime, offset, total, crcType % 256);
  }

  method ReadFour(buf: seq<byte>, pos: nat) returns (next: int, four: (u64, u64, u64, u64))
    requires pos <= |buf|
    ensures next <= |buf| && TakeFour(buf[pos..]) == if next < 0 then Bad else Got(four, buf[next..])
  {
    hide TakeUint;
    four := (0, 0, 0, 0);
    var a, b, c, d;
    next, a := ReadUint(buf, pos);
    if next < 0 {
      return;
    }
    next, b := ReadUint(buf, next);
    if next < 0 {
      return;
    }
    next, c := ReadUint(buf, next);
    if next < 0 {
      return;
    }
    next, d := ReadUint(buf, next);
    four := (a, b, c, d);
  }

  method ReadPayload(buf: seq<byte>, pos: nat) returns (next: int, payload: seq<byte>)
    requires pos <= |buf|
    ensures next <= |buf| && TakePayload(buf[pos..]) == if next < 0 then Bad else Got(payload, buf[next..])
  {
    hide TakeNumber, TakeFour, TakeText;
    var n, count := ReadNumber(buf, pos, ARRAY);
    if n < 0 || count < 5 {
      return -1, [];
    }
    var k, four := ReadFour(buf, n);
    if k < 0 {
      return -1, [];
    }
    next, payload := ReadText(buf, k, BSTR);
  }

  /** bp_decode_bundle: the number of octets consumed, break included, or -1. */
  method DecodeBundle(buf: seq<byte>) returns (n: int, bundle: Bundle)
    ensures n <= |buf| && Decode(buf) == if n < 0 then Bad else Got(bundle, buf[n..])
  {
    hide TakePrimary, TakePayload;
    bundle := Bundle(Primary(0, [], [], [], 0, 0, 0, 0, 0, 0), []);
    if |buf| < 3 || buf[0] != INDEF_ARRAY {
      return -1, bundle;
    }
    var k, primary := ReadPrimary(buf, 1);
    if k < 0 {
      return -1, bundle;
    }
    var m, payload := ReadPayload(buf, k);
    if m < 0 || m >= |buf| || buf[m] != BREAK {
      return -1, bundle;
    }
    return m + 1, Bundle(primary, payload);
  }
}
