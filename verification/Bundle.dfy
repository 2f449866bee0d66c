/**
 * Bundles as bp.c writes and reads them (version 7, section 4.3.1 of RFC 9171): a primary block with a CRC,
 * one payload block, inside an indefinite-length array.
 */
module Bundle {
  import opened Bytes
  import opened Cbor
  import opened Sequences
  import Crc16
  import Crc = CrcPolynomial
  import BitWords
  import Fcs
  import Polynomial

  const VERSION := 7
  const MAX_EID_LEN := 64
  const DTN: seq<byte> := [0x64, 0x74, 0x6E, 0x3A]   // "dtn:"

  /** An endpoint identifier: a C string of at most 63 octets. */
  type Uri = s: seq<byte> | |s| < MAX_EID_LEN

  datatype Primary = Primary(flags: u64, dst: Uri, src: Uri, reportTo: Uri, time: u64, sequence: u64, lifetime: u64,
                             fragmentOffset: u64, totalAdu: u64, crcType: byte)

  datatype Bundle = Bundle(primary: Primary, payload: seq<byte>)

  predicate IsFragment(flags: u64) {
    flags % 2 == 1
  }

  // ---- Endpoint identifiers ----

  predicate HasScheme(uri: seq<byte>) {
    |uri| >= 4 && uri[..4] == DTN
  }

  /** What follows the scheme name; everything when it is missing. */
  function Ssp(uri: Uri): Uri {
    if HasScheme(uri) then uri[4..] else uri
  }

  function EidBytes(uri: Uri): seq<byte> {
    Head(ARRAY, 2) + Uint(1) + Text(TSTR, Ssp(uri))
  }

  function TakeEid(buf: seq<byte>): (g: Got<Uri>)
    ensures g.Got? ==> |g.rest| < |buf|
  {
    var (count, r1) :- TakeArray(buf);
    if count != 2 then Bad
    else
      var (scheme, r2) :- TakeUint(r1);
      if scheme != 1 then Bad
      else
        var (ssp, r3) :- TakeText(r2, TSTR);
        if |ssp| + 4 >= MAX_EID_LEN then Bad else Got(DTN + ssp, r3)
  }

  lemma Assoc4(a: seq<byte>, b: seq<byte>, c: seq<byte>, d: seq<byte>)
    ensures a + b + c + d == a + (b + (c + d))
  {
  }

  /** Whether the identifier, with its scheme name, fits the decoder's buffer. */
  predicate Readable(uri: Uri) {
    |Ssp(uri)| + 4 < MAX_EID_LEN
  }

  function Normal(uri: Uri): Uri
    requires Readable(uri)
  {
    DTN + Ssp(uri)
  }

  /** An identifier comes back with its scheme name; one written without it comes back with one, if that fits. */
  lemma EidRoundTrip(uri: Uri, rest: seq<byte>)
    ensures TakeEid(EidBytes(uri) + rest) == if Readable(uri) then Got(Normal(uri), rest) else Bad
  {
    var t := Text(TSTR, Ssp(uri));
    Assoc4(Head(ARRAY, 2), Uint(1), t, rest);
    ArrayRoundTrip(2, Uint(1) + (t + rest));
    UintRoundTrip(1, t + rest);
    TextRoundTrip(TSTR, Ssp(uri), rest);
  }

  /** The identifiers that survive a round trip are exactly those of the dtn scheme. */
  lemma EidSurvives(uri: Uri, rest: seq<byte>)
    ensures TakeEid(EidBytes(uri) + rest) == Got(uri, rest) <==> HasScheme(uri)
    ensures Readable(uri) && Normal(uri) == uri <==> HasScheme(uri)
  {
    EidRoundTrip(uri, rest);
    if HasScheme(uri) {
      assert uri == uri[..4] + uri[4..];
    } else if |uri| + 4 < MAX_EID_LEN {
      assert (DTN + uri)[..4] == DTN;
    }
  }

  // ---- The primary block ----

  function Opening(flags: u64): seq<byte> {
    Head(ARRAY, if IsFragment(flags) then 11 else 9) + Uint(VERSION) + Uint(flags) + Uint(1)
  }

  function Eids(src: Uri, dst: Uri): seq<byte> {
    EidBytes(dst) + EidBytes(src) + EidBytes(src)
  }

  function Times(time: u64, sequence: u64, lifetime: u64): seq<byte> {
    Head(ARRAY, 2) + Uint(time) + Uint(sequence) + Uint(lifetime)
  }

  function FragmentFields(flags: u64, offset: u64, total: u64): seq<byte> {
    if IsFragment(flags) then Uint(offset) + Uint(total) else []
  }

  /** The block before its CRC; the report-to identifier is the source. */
  function PrimaryFields(p: Primary): seq<byte> {
    Opening(p.flags) + Eids(p.src, p.dst) + Times(p.time, p.sequence, p.lifetime)
    + FragmentFields(p.flags, p.fragmentOffset, p.totalAdu)
  }

  /** The two CRC octets are a byte string of length two, computed over the block with zeros in their place. */
  function CrcField(fields: seq<byte>): seq<byte> {
    [0x42] + Crc16.Octets(fields + [0x42, 0, 0])
  }

  function PrimaryBytes(p: Primary): seq<byte> {
    PrimaryFields(p) + CrcField(PrimaryFields(p))
  }

  function PayloadBytes(payload: seq<byte>): seq<byte>
    requires |payload| < U64_LIMIT
  {
    Head(ARRAY, 5) + (Uint(1) + Uint(1) + Uint(0) + Uint(0)) + Text(BSTR, payload)
  }

  /** The whole encoding, with any octets in the place of the CRC. */
  function Framed(p: Primary, crc: seq<byte>, payload: seq<byte>): seq<byte>
    requires |payload| < U64_LIMIT
  {
    [INDEF_ARRAY] + (PrimaryFields(p) + crc) + PayloadBytes(payload) + [BREAK]
  }

  function Encode(p: Primary, payload: seq<byte>): seq<byte>
    requires |payload| < U64_LIMIT
  {
    Framed(p, CrcField(PrimaryFields(p)), payload)
  }

  // ---- Decoding ----

  function TakeOpening(buf: seq<byte>): Got<(u64, u64)> {
    var (count, r1) :- TakeArray(buf);
    var (version, r2) :- TakeUint(r1);
    if version != VERSION then Bad
    else
      var (flags, r3) :- TakeUint(r2);
      var (crcType, r4) :- TakeUint(r3);
      Got((flags, crcType), r4)
  }

  function TakeEids(buf: seq<byte>): Got<(Uri, Uri, Uri)> {
    var (dst, r1) :- TakeEid(buf);
    var (src, r2) :- TakeEid(r1);
    var (reportTo, r3) :- TakeEid(r2);
    Got((dst, src, reportTo), r3)
  }

  function TakeTimes(buf: seq<byte>): Got<(u64, u64, u64)> {
    var (count, r1) :- TakeArray(buf);
    if count != 2 then Bad
    else
      var (time, r2) :- TakeUint(r1);
      var (sequence, r3) :- TakeUint(r2);
      var (lifetime, r4) :- TakeUint(r3);
      Got((time, sequence, lifetime), r4)
  }

  function TakeFragmentFields(flags: u64, buf: seq<byte>): Got<(u64, u64)> {
    if !IsFragment(flags) then Got((0, 0), buf)
    else
      var (offset, r1) :- TakeUint(buf);
      var (total, r2) :- TakeUint(r1);
      Got((offset, total), r2)
  }

  /** The CRC is consumed; its value is not looked at. */
  function TakeCrc(crcType: u64, buf: seq<byte>): Got<seq<byte>> {
    if crcType == 1 then TakeText(buf, BSTR) else Got([], buf)
  }

  function TakePrimary(buf: seq<byte>): Got<Primary> {
    var (opening, r1) :- TakeOpening(buf);
    var (eids, r2) :- TakeEids(r1);
    var (times, r3) :- TakeTimes(r2);
    var (frag, r4) :- TakeFragmentFields(opening.0, r3);
    var (crc, r5) :- TakeCrc(opening.1, r4);
    Got(Primary(opening.0, eids.0, eids.1, eids.2, times.0, times.1, times.2, frag.0, frag.1, opening.1 % 256), r5)
  }

  /** Type, number, flags and CRC type of the payload block. */
  function TakeFour(buf: seq<byte>): Got<(u64, u64, u64, u64)> {
    var (a, r1) :- TakeUint(buf);
    var (b, r2) :- TakeUint(r1);
    var (c, r3) :- TakeUint(r2);
    var (d, r4) :- TakeUint(r3);
    Got((a, b, c, d), r4)
  }

  function TakePayload(buf: seq<byte>): Got<seq<byte>> {
    var (count, r1) :- TakeArray(buf);
    if count < 5 then Bad
    else
      var (four, r2) :- TakeFour(r1);
      TakeText(r2, BSTR)
  }

  function Decode(buf: seq<byte>): Got<Bundle> {
    if |buf| < 3 || buf[0] != INDEF_ARRAY then Bad
    else
      var (primary, r1) :- TakePrimary(buf[1..]);
      var (payload, r2) :- TakePayload(r1);
      if r2 == [] || r2[0] != BREAK then Bad else Got(Bundle(primary, payload), r2[1..])
  }

  // ---- Round trips ----

  lemma OpeningRoundTrip(flags: u64, rest: seq<byte>)
    ensures TakeOpening(Opening(flags) + rest) == Got((flags, 1), rest)
  {
    var h := Head(ARRAY, if IsFragment(flags) then 11 else 9);
    Assoc4(h, Uint(VERSION), Uint(flags), Uint(1));
    Assoc(h, Uint(VERSION) + (Uint(flags) + Uint(1)), rest);
    Assoc(Uint(VERSION), Uint(flags) + Uint(1), rest);
    Assoc(Uint(flags), Uint(1), rest);
    ArrayRoundTrip(if IsFragment(flags) then 11 else 9, Uint(VERSION) + (Uint(flags) + (Uint(1) + rest)));
    UintRoundTrip(VERSION, Uint(flags) + (Uint(1) + rest));
    UintRoundTrip(flags, Uint(1) + rest);
    UintRoundTrip(1, rest);
  }

  lemma EidsRoundTrip(src: Uri, dst: Uri, rest: seq<byte>)
    ensures TakeEids(Eids(src, dst) + rest)
         == if Readable(dst) && Readable(src) then Got((Normal(dst), Normal(src), Normal(src)), rest) else Bad
  {
    var d, s := EidBytes(dst), EidBytes(src);
    Assoc4(d, s, s, rest);
    EidRoundTrip(dst, s + (s + rest));
    EidRoundTrip(src, s + rest);
    EidRoundTrip(src, rest);
  }

  lemma TimesRoundTrip(time: u64, sequence: u64, lifetime: u64, rest: seq<byte>)
    ensures TakeTimes(Times(time, sequence, lifetime) + rest) == Got((time, sequence, lifetime), rest)
  {
    var h := Head(ARRAY, 2);
    Assoc4(h, Uint(time), Uint(sequence), Uint(lifetime));
    Assoc(h, Uint(time) + (Uint(sequence) + Uint(lifetime)), rest);
    Assoc(Uint(time), Uint(sequence) + Uint(lifetime), rest);
    Assoc(Uint(sequence), Uint(lifetime), rest);
    ArrayRoundTrip(2, Uint(time) + (Uint(sequence) + (Uint(lifetime) + rest)));
    UintRoundTrip(time, Uint(sequence) + (Uint(lifetime) + rest));
    UintRoundTrip(sequence, Uint(lifetime) + rest);
    UintRoundTrip(lifetime, rest);
  }

  lemma FragmentRoundTrip(flags: u64, offset: u64, total: u64, rest: seq<byte>)
    ensures TakeFragmentFields(flags, FragmentFields(flags, offset, total) + rest)
         == Got(if IsFragment(flags) then (offset, total) else (0, 0), rest)
  {
    if IsFragment(flags) {
      Assoc(Uint(offset), Uint(total), rest);
      UintRoundTrip(offset, Uint(total) + rest);
      UintRoundTrip(total, rest);
    } else {
      assert [] + rest == rest;
    }
  }

  /** Any two octets in the place of the CRC are consumed. */
  lemma CrcTaken(crc: seq<byte>, rest: seq<byte>)
    requires |crc| == 2
    ensures TakeCrc(1, [0x42] + crc + rest) == Got(crc, rest)
  {
    assert Head(BSTR, 2) == [0x42] + [];
    TextRoundTrip(BSTR, crc, rest);
    assert Text(BSTR, crc) == [0x42] + crc;
  }

  /** A primary block as the encoder is asked for one. */
  predicate Encodable(p: Primary) {
    p.reportTo == p.src && p.crcType == 1 && (!IsFragment(p.flags) ==> p.fragmentOffset == p.totalAdu == 0)
  }

  function NormalPrimary(p: Primary): Primary
    requires Readable(p.src) && Readable(p.dst)
  {
    p.(dst := Normal(p.dst), src := Normal(p.src), reportTo := Normal(p.src))
  }

  lemma PrimaryRoundTrip(p: Primary, crc: seq<byte>, rest: seq<byte>)
    requires Encodable(p) && |crc| == 2
    ensures TakePrimary(PrimaryFields(p) + ([0x42] + crc) + rest)
         == if Readable(p.dst) && Readable(p.src) then Got(NormalPrimary(p), rest) else Bad
  {
    var o, e, t := Opening(p.flags), Eids(p.src, p.dst), Times(p.time, p.sequence, p.lifetime);
    var f, c := FragmentFields(p.flags, p.fragmentOffset, p.totalAdu), [0x42] + crc;
    Five(o, e, t, f, c, rest);
    OpeningRoundTrip(p.flags, e + (t + (f + (c + rest))));
    EidsRoundTrip(p.src, p.dst, t + (f + (c + rest)));
    TimesRoundTrip(p.time, p.sequence, p.lifetime, f + (c + rest));
    FragmentRoundTrip(p.flags, p.fragmentOffset, p.totalAdu, c + rest);
    CrcTaken(crc, rest);
  }

  lemma Five(o: seq<byte>, e: seq<byte>, t: seq<byte>, f: seq<byte>, c: seq<byte>, rest: seq<byte>)
    ensures o + e + t + f + c + rest == o + (e + (t + (f + (c + rest))))
  {
    Assoc4(o, e, t, f);
    Assoc(o, e + (t + f), c);
    Assoc(e, t + f, c);
    Assoc(t, f, c);
    Assoc(o, e + (t + (f + c)), rest);
    Assoc(e, t + (f + c), rest);
    Assoc(t, f + c, rest);
    Assoc(f, c, rest);
  }

  lemma FourRoundTrip(rest: seq<byte>)
    ensures TakeFour(Uint(1) + Uint(1) + Uint(0) + Uint(0) + rest) == Got((1, 1, 0, 0), rest)
  {
    Assoc4(Uint(1), Uint(1), Uint(0), Uint(0));
    Assoc(Uint(1), Uint(1) + (Uint(0) + Uint(0)), rest);
    Assoc(Uint(1), Uint(0) + Uint(0), rest);
    Assoc(Uint(0), Uint(0), rest);
    UintRoundTrip(1, Uint(1) + (Uint(0) + (Uint(0) + rest)));
    UintRoundTrip(1, Uint(0) + (Uint(0) + rest));
    UintRoundTrip(0, Uint(0) + rest);
    UintRoundTrip(0, rest);
  }

  lemma PayloadRoundTrip(payload: seq<byte>, rest: seq<byte>)
    requires |payload| < U64_LIMIT
    ensures TakePayload(PayloadBytes(payload) + rest) == Got(payload, rest)
  {
    var h, four, t := Head(ARRAY, 5), Uint(1) + Uint(1) + Uint(0) + Uint(0), Text(BSTR, payload);
    Assoc4(h, four, t, rest);
    ArrayRoundTrip(5, four + (t + rest));
    FourRoundTrip(t + rest);
    TextRoundTrip(BSTR, payload, rest);
  }

  /** A framed bundle is read back up to the spelling of its identifiers, whatever its CRC octets are. */
  lemma FramedRoundTrip(p: Primary, crc: seq<byte>, payload: seq<byte>, rest: seq<byte>)
    requires Encodable(p) && |crc| == 2 && |payload| < U64_LIMIT
    ensures Decode(Framed(p, [0x42] + crc, payload) + rest)
         == if Readable(p.dst) && Readable(p.src) then Got(Bundle(NormalPrimary(p), payload), rest) else Bad
  {
    var body, pay := PrimaryFields(p) + ([0x42] + crc), PayloadBytes(payload);
    var buf := Framed(p, [0x42] + crc, payload) + rest;
    FramedParts(body, pay, rest);
    PrimaryRoundTrip(p, crc, pay + ([BREAK] + rest));
    PayloadRoundTrip(payload, [BREAK] + rest);
    assert ([BREAK] + rest)[1..] == rest;
  }

  lemma FramedParts(body: seq<byte>, pay: seq<byte>, rest: seq<byte>)
    ensures var buf := [INDEF_ARRAY] + body + pay + [BREAK] + rest;
            buf[0] == INDEF_ARRAY && buf[1..] == body + (pay + ([BREAK] + rest))
  {
  }

  /** Decoding recovers the block and the payload and consumes exactly the encoding: iff both identifiers are dtn: ones. */
  lemma BundleRoundTrip(p: Primary, payload: seq<byte>, rest: seq<byte>)
    requires Encodable(p) && |payload| < U64_LIMIT
    ensures Decode(Encode(p, payload) + rest) == Got(Bundle(p, payload), rest) <==> HasScheme(p.src) && HasScheme(p.dst)
  {
    FramedRoundTrip(p, Crc16.Octets(PrimaryFields(p) + [0x42, 0, 0]), payload, rest);
    EidSurvives(p.src, rest);
    EidSurvives(p.dst, rest);
  }

  /**
   * The design asks the receiver to verify the CRC. It does not: whatever two octets stand in its place, the
   * bundle decodes to the same thing.
   */
  lemma CrcNotChecked(p: Primary, crc: seq<byte>, payload: seq<byte>, rest: seq<byte>)
    requires Encodable(p) && |crc| == 2 && |payload| < U64_LIMIT
    ensures Decode(Framed(p, [0x42] + crc, payload) + rest) == Decode(Encode(p, payload) + rest)
  {
    FramedRoundTrip(p, crc, payload, rest);
    FramedRoundTrip(p, Crc16.Octets(PrimaryFields(p) + [0x42, 0, 0]), payload, rest);
  }

  // ---- The CRC of the primary block ----

  /** A block with zeros in its last two octets, where the CRC goes. */
  function Blanked(block: seq<byte>): (r: seq<byte>)
    requires |block| >= 2
    ensures |r| == |block|
  {
    block[..|block| - 2] + [0, 0]
  }

  /**
   * The last two octets of the primary block are the remainder of the block, zeros in their place, after sixteen
   * ones, divided by x^16 + x^12 + x^5 + 1; and the block is what follows the bundle's first octet.
   */
  lemma PrimaryCrc(p: Primary, payload: seq<byte>)
    requires |payload| < U64_LIMIT
    ensures var b := PrimaryBytes(p);
            && |b| >= 3 && b <= Encode(p, payload)[1..]
            && Polynomial.IsRemainder(Crc.Dividend(seq(16, _ => true), Crc.MsbBits(Blanked(b))), Crc.Ccitt(),
                                      Crc.MsbBits(b[|b| - 2..]))
  {
    var fields, b := PrimaryFields(p), PrimaryBytes(p);
    assert Encode(p, payload) == [INDEF_ARRAY] + b + PayloadBytes(payload) + [BREAK];
    assert b == fields + CrcField(fields);
    hide *;
    PrimaryParts(fields, PayloadBytes(payload));
    Crc.CrcIsRemainder(fields + [0x42, 0, 0]);
  }

  lemma PrimaryParts(fields: seq<byte>, pay: seq<byte>)
    ensures var b := fields + CrcField(fields);
            && |b| >= 3 && Blanked(b) == fields + [0x42, 0, 0] && b[|b| - 2..] == Crc16.Octets(fields + [0x42, 0, 0])
            && b <= ([INDEF_ARRAY] + b + pay + [BREAK])[1..]
  {
    hide Crc16.Octets;
    var b := fields + CrcField(fields);
    assert ([INDEF_ARRAY] + b + pay + [BREAK])[1..] == b + (pay + [BREAK]);
  }

  /**
   * Two primary blocks of one length that differ before their CRCs in a burst within sixteen consecutive bits, or
   * in an odd number of bits, carry different CRCs.
   */
  lemma PrimaryCrcDiffers(p: Primary, q: Primary, at: nat)
    requires |PrimaryBytes(p)| == |PrimaryBytes(q)| && PrimaryFields(p) != PrimaryFields(q)
    requires var a, b := Crc.MsbBits(Blanked(PrimaryBytes(p))), Crc.MsbBits(Blanked(PrimaryBytes(q)));
             || (forall i :: 0 <= i < |a| && a[i] != b[i] ==> at <= i < at + 16)
             || Fcs.Flips(BitWords.Xor(a, b)) % 2 == 1
    ensures var a, b := PrimaryBytes(p), PrimaryBytes(q); a[|a| - 2..] != b[|b| - 2..]
  {
    var f, g := PrimaryFields(p), PrimaryFields(q);
    assert PrimaryBytes(p) == f + CrcField(f) && PrimaryBytes(q) == g + CrcField(g) && |CrcField(f)| == |CrcField(g)|;
    hide *;
    PrimaryParts(f, []);
    PrimaryParts(g, []);
    var a, b := f + [0x42, 0, 0], g + [0x42, 0, 0];
    SameHead(f, g, [0x42, 0, 0]);
    if Fcs.Flips(BitWords.Xor(Crc.MsbBits(a), Crc.MsbBits(b))) % 2 == 1 {
      Crc.CrcOdd(a, b);
    } else {
      Crc.CrcBurst(a, b, at);
    }
  }

  lemma SameHead(f: seq<byte>, g: seq<byte>, t: seq<byte>)
    requires |f| == |g|
    ensures f + t == g + t ==> f == g
  {
    assert (f + t)[..|f|] == f && (g + t)[..|f|] == g;
  }

  // ---- The encoding is one well-formed CBOR item ----

  lemma SkipTwo(a: u64, b: u64, rest: seq<byte>, n: nat)
    requires n >= 2
    ensures SkipItems(Uint(a) + (Uint(b) + rest), n) == SkipItems(rest, n - 2)
  {
    SkipUint(a, Uint(b) + rest);
    SkipUint(b, rest);
  }

  lemma SkipOne(a: u64, rest: seq<byte>, n: nat)
    requires n >= 1
    ensures SkipItems(Uint(a) + rest, n) == SkipItems(rest, n - 1)
  {
    SkipUint(a, rest);
  }

  /** An identifier is one item: an array of the two that follow. */
  lemma SkipEid(uri: Uri, rest: seq<byte>, n: nat)
    requires n >= 1
    ensures SkipItems(EidBytes(uri) + rest, n) == SkipItems(rest, n - 1)
  {
    var t := Text(TSTR, Ssp(uri));
    Assoc4(Head(ARRAY, 2), Uint(1), t, rest);
    SkipArray(2, Uint(1) + (t + rest));
    SkipUint(1, t + rest);
    SkipText(TSTR, Ssp(uri), rest);
    assert SkipItems(t + rest, 1) == SkipItems(rest, 0);
  }

  lemma SkipEids(src: Uri, dst: Uri, rest: seq<byte>, n: nat)
    requires n >= 3
    ensures SkipItems(Eids(src, dst) + rest, n) == SkipItems(rest, n - 3)
  {
    var d, s := EidBytes(dst), EidBytes(src);
    Assoc4(d, s, s, rest);
    SkipEid(dst, s + (s + rest), n);
    SkipEid(src, s + rest, n - 1);
    SkipEid(src, rest, n - 2);
  }

  /** The timestamp is an array of two; the lifetime is the next item. */
  lemma SkipTimes(time: u64, sequence: u64, lifetime: u64, rest: seq<byte>, n: nat)
    requires n >= 2
    ensures SkipItems(Times(time, sequence, lifetime) + rest, n) == SkipItems(rest, n - 2)
  {
    hide Head, Uint, SkipItems;
    var h, l := Head(ARRAY, 2), Uint(lifetime);
    Assoc4(h, Uint(time), Uint(sequence), l);
    Assoc(h, Uint(time) + (Uint(sequence) + l), rest);
    Assoc(Uint(time), Uint(sequence) + l, rest);
    Assoc(Uint(sequence), l, rest);
    SkipStamp(time, sequence, l + rest, n);
    SkipOne(lifetime, rest, n - 1);
  }

  lemma SkipStamp(time: u64, sequence: u64, rest: seq<byte>, n: nat)
    requires n >= 1
    ensures SkipItems(Head(ARRAY, 2) + (Uint(time) + (Uint(sequence) + rest)), n) == SkipItems(rest, n - 1)
  {
    SkipArray(2, Uint(time) + (Uint(sequence) + rest));
    SkipTwo(time, sequence, rest, 2);
    assert SkipItems(rest, 0) == Some(rest);
  }

  lemma SkipFragment(flags: u64, offset: u64, total: u64, rest: seq<byte>, n: nat)
    requires n >= 2
    ensures SkipItems(FragmentFields(flags, offset, total) + rest, n)
         == SkipItems(rest, if IsFragment(flags) then n - 2 else n)
  {
    if IsFragment(flags) {
      Assoc(Uint(offset), Uint(total), rest);
      SkipTwo(offset, total, rest, n);
    } else {
      assert [] + rest == rest;
    }
  }

  lemma SkipCrc(crc: seq<byte>, rest: seq<byte>)
    requires |crc| == 2
    ensures SkipItems([0x42] + crc + rest, 1) == Some(rest)
  {
    assert Head(BSTR, 2) == [0x42] + [];
    assert Text(BSTR, crc) == [0x42] + crc;
    SkipText(BSTR, crc, rest);
    assert SkipItems(rest, 0) == Some(rest);
  }

  /** The primary block announces nine items, or eleven for a fragment, and holds as many. */
  lemma SkipPrimary(p: Primary, crc: seq<byte>, rest: seq<byte>)
    requires |crc| == 2
    ensures SkipItem(PrimaryFields(p) + ([0x42] + crc) + rest) == Some(rest)
  {
    var o, e, t := Opening(p.flags), Eids(p.src, p.dst), Times(p.time, p.sequence, p.lifetime);
    var f, c := FragmentFields(p.flags, p.fragmentOffset, p.totalAdu), [0x42] + crc;
    var more := if IsFragment(p.flags) then 2 else 0;
    Five(o, e, t, f, c, rest);
    SkipOpening(p.flags, e + (t + (f + (c + rest))));
    SkipEids(p.src, p.dst, t + (f + (c + rest)), 6 + more);
    SkipTimes(p.time, p.sequence, p.lifetime, f + (c + rest), 3 + more);
    if IsFragment(p.flags) {
      SkipFragment(p.flags, p.fragmentOffset, p.totalAdu, c + rest, 3);
    } else {
      assert [] + (c + rest) == c + rest;
    }
    SkipCrc(crc, rest);
  }

  lemma SkipOpening(flags: u64, rest: seq<byte>)
    ensures SkipItem(Opening(flags) + rest) == SkipItems(rest, if IsFragment(flags) then 8 else 6)
  {
    var n: u64 := if IsFragment(flags) then 11 else 9;
    var h := Head(ARRAY, n);
    Assoc4(h, Uint(VERSION), Uint(flags), Uint(1));
    Assoc(h, Uint(VERSION) + (Uint(flags) + Uint(1)), rest);
    Assoc(Uint(VERSION), Uint(flags) + Uint(1), rest);
    Assoc(Uint(flags), Uint(1), rest);
    SkipArray(n, Uint(VERSION) + (Uint(flags) + (Uint(1) + rest)));
    SkipTwo(VERSION, flags, Uint(1) + rest, n);
    SkipOne(1, rest, n - 2);
  }

  /** The payload block announces five items and holds five. */
  lemma SkipPayload(payload: seq<byte>, rest: seq<byte>)
    requires |payload| < U64_LIMIT
    ensures SkipItem(PayloadBytes(payload) + rest) == Some(rest)
  {
    var h, four, t := Head(ARRAY, 5), Uint(1) + Uint(1) + Uint(0) + Uint(0), Text(BSTR, payload);
    Assoc4(h, four, t, rest);
    Assoc4(Uint(1), Uint(1), Uint(0), Uint(0));
    Assoc(Uint(1), Uint(1) + (Uint(0) + Uint(0)), t + rest);
    Assoc(Uint(1), Uint(0) + Uint(0), t + rest);
    Assoc(Uint(0), Uint(0), t + rest);
    SkipArray(5, four + (t + rest));
    SkipTwo(1, 1, Uint(0) + (Uint(0) + (t + rest)), 5);
    SkipTwo(0, 0, t + rest, 3);
    SkipText(BSTR, payload, rest);
    assert SkipItems(rest, 0) == Some(rest);
  }

  /** Everything the encoder writes is one well-formed item of RFC 8949, for every input. */
  lemma WellFormed(p: Primary, payload: seq<byte>, rest: seq<byte>)
    requires |payload| < U64_LIMIT
    ensures SkipItem(Encode(p, payload) + rest) == Some(rest)
  {
    var crc := Crc16.Octets(PrimaryFields(p) + [0x42, 0, 0]);
    var body, pay := PrimaryFields(p) + ([0x42] + crc), PayloadBytes(payload);
    FramedParts(body, pay, rest);
    SkipPrimary(p, crc, pay + ([BREAK] + rest));
    SkipPayload(payload, [BREAK] + rest);
    ItemThen(body + (pay + ([BREAK] + rest)), pay + ([BREAK] + rest));
    ItemThen(pay + ([BREAK] + rest), [BREAK] + rest);
    assert ([BREAK] + rest)[1..] == rest;
  }

  /** An item does not start with a break, so the search for the break goes on after it. */
  lemma ItemThen(buf: seq<byte>, rest: seq<byte>)
    requires SkipItem(buf) == Some(rest)
    ensures SkipToBreak(buf) == SkipToBreak(rest)
  {
  }

  // ---- Sizes ----

  /** A bundle with a payload of at most 512 octets, a fragment included, fits one LTP block. */
  lemma FitsBlock(p: Primary, payload: seq<byte>)
    requires |payload| <= 512
    ensures |Encode(p, payload)| <= 1024 < 2048
  {
    EidSize(p.src);
    EidSize(p.dst);
    FragmentSize(p.flags, p.fragmentOffset, p.totalAdu);
    assert |Opening(p.flags)| <= 36 && |Times(p.time, p.sequence, p.lifetime)| <= 36;
    assert |PayloadBytes(payload)| <= 54 + |payload|;
  }

  lemma EidSize(uri: Uri)
    ensures |EidBytes(uri)| <= 27 + |uri|
  {
  }

  lemma FragmentSize(flags: u64, offset: u64, total: u64)
    ensures |FragmentFields(flags, offset, total)| <= 18
  {
  }
}
