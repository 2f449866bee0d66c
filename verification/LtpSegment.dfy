/**
 * The segment wire format of ltp.c: a type octet, two SDNVs, two one-octet extension counts, then
 * type-specific SDNV fields and, for data and cancel segments, raw octets.
 */
module LtpSegment {
  import opened Bytes
  import opened ClaimMap
  import opened Sequences
  import Sdnv

  const SEGMENT_BUF := 512

  const RED_DATA := 0
  const RED_DATA_CP := 1
  const RED_DATA_EORP_CP := 2
  const GREEN_DATA_EOB := 4
  const REPORT := 8
  const REPORT_ACK := 9
  const CANCEL_BY_SENDER := 12
  const CANCEL_ACK_SENDER := 13
  const CANCEL_BY_RECVR := 14
  const CANCEL_ACK_RECVR := 15

  datatype Header = Header(version: nat, kind: nat, engine: nat, session: nat, hdrExt: byte, trailerExt: byte)

  datatype Segment =
    | DataSeg(hdr: Header, service: nat, offset: nat, cpSerial: nat, rptSerial: nat, payload: seq<byte>)
    | ReportSeg(hdr: Header, rptSerial: nat, cpSerial: nat, upper: nat, lower: nat, claims: seq<Claim>)
    | AckSeg(hdr: Header, rptSerial: nat)
    | CancelSeg(hdr: Header, reason: byte)

  predicate IsCheckpoint(kind: nat) {
    kind == RED_DATA_CP || kind == RED_DATA_EORP_CP
  }

  predicate Reserved(kind: nat) {
    5 <= kind <= 7 || 10 <= kind <= 11
  }

  /** A segment as the engine builds one: no extensions, the right type octet, serials only on checkpoints. */
  predicate WellFormed(s: Segment) {
    && s.hdr.version < 16 && s.hdr.hdrExt == 0
    && match s
       case DataSeg(h, _, _, cp, rpt, _) => h.kind <= GREEN_DATA_EOB && (IsCheckpoint(h.kind) || cp == rpt == 0)
       case ReportSeg(h, _, _, _, _, claims) => h.kind == REPORT && |claims| <= MAX_CLAIMS
       case AckSeg(h, _) => h.kind == REPORT_ACK
       case CancelSeg(h, _) => CANCEL_BY_SENDER <= h.kind <= CANCEL_ACK_RECVR
  }

  // ---- Runs of SDNV fields ----

  function FieldsBytes(vs: seq<nat>): seq<byte> {
    if vs == [] then [] else Sdnv.Encode(vs[0]) + FieldsBytes(vs[1..])
  }

  datatype Parsed = Parsed(fields: seq<nat>, rest: seq<byte>)

  /** Exactly k SDNVs from the front of the buffer. */
  function Fields(buf: seq<byte>, k: nat): Option<Parsed> {
    if k == 0 then Some(Parsed([], buf))
    else
      match Sdnv.Decode(buf)
      case None => None
      case Some(d) =>
        match Fields(buf[d.used..], k - 1)
        case None => None
        case Some(p) => Some(Parsed([d.value] + p.fields, p.rest))
  }

  predicate Small(vs: seq<nat>) {
    forall i :: 0 <= i < |vs| ==> vs[i] < Sdnv.INT64_LIMIT
  }

  /** The encoder's own limit: ten octets a field. */
  predicate Encodable(vs: seq<nat>) {
    forall i :: 0 <= i < |vs| ==> |Sdnv.Encode(vs[i])| <= Sdnv.MAX_BYTES
  }

  /** A run of fields is read back exactly when every one of them is below 2^63; one larger field loses the run. */
  lemma {:induction false} FieldsRoundTrip(vs: seq<nat>, rest: seq<byte>)
    ensures Fields(FieldsBytes(vs) + rest, |vs|) == if Small(vs) then Some(Parsed(vs, rest)) else None
  {
    hide Sdnv.Encode, Sdnv.Decode;
    var buf := FieldsBytes(vs) + rest;
    if vs == [] {
      assert buf == rest;
    } else {
      var e := Sdnv.Encode(vs[0]);
      assert buf == e + (FieldsBytes(vs[1..]) + rest);
      Sdnv.DecodeEncode(vs[0], FieldsBytes(vs[1..]) + rest);
      if vs[0] < Sdnv.INT64_LIMIT {
        assert buf[|e|..] == FieldsBytes(vs[1..]) + rest;
        FieldsRoundTrip(vs[1..], rest);
        assert vs == [vs[0]] + vs[1..];
        assert Small(vs) <==> Small(vs[1..]);
      }
    }
  }

  lemma {:induction false} FieldsCount(buf: seq<byte>, k: nat)
    requires Fields(buf, k).Some?
    ensures |Fields(buf, k).value.fields| == k && |Fields(buf, k).value.rest| <= |buf|
    ensures Small(Fields(buf, k).value.fields)
  {
    if k > 0 {
      var d := Sdnv.Decode(buf).value;
      FieldsCount(buf[d.used..], k - 1);
    }
  }

  lemma {:induction false} FieldsAppend(vs: seq<nat>, ws: seq<nat>)
    ensures FieldsBytes(vs + ws) == FieldsBytes(vs) + FieldsBytes(ws)
  {
    if vs == [] {
      assert vs + ws == ws;
    } else {
      FieldsAppend(vs[1..], ws);
      assert (vs + ws)[1..] == vs[1..] + ws;
      Assoc(Sdnv.Encode(vs[0]), FieldsBytes(vs[1..]), FieldsBytes(ws));
    }
  }

  // ---- The format ----

  function ClaimFields(claims: seq<Claim>): (r: seq<nat>)
    ensures |r| == 2 * |claims|
  {
    if claims == [] then [] else [claims[0].offset, claims[0].length] + ClaimFields(claims[1..])
  }

  function ClaimsOf(vs: seq<nat>): (r: seq<Claim>)
    requires |vs| % 2 == 0
    ensures |r| == |vs| / 2
  {
    if vs == [] then [] else [Claim(vs[0], vs[1])] + ClaimsOf(vs[2..])
  }

  lemma {:induction false} ClaimsOfFields(claims: seq<Claim>)
    ensures ClaimsOf(ClaimFields(claims)) == claims
  {
    if claims != [] {
      ClaimsOfFields(claims[1..]);
      assert ClaimFields(claims)[2..] == ClaimFields(claims[1..]);
    }
  }

  function TypeOctet(h: Header): byte {
    h.version * 16 % 256 + h.kind % 16
  }

  function HeaderBytes(h: Header): seq<byte> {
    [TypeOctet(h)] + FieldsBytes([h.engine, h.session]) + [h.hdrExt, h.trailerExt]
  }

  function ContentFields(s: Segment): seq<nat> {
    match s
    case DataSeg(h, service, offset, cp, rpt, payload) =>
      [service, offset, |payload|] + if IsCheckpoint(h.kind) then [cp, rpt] else []
    case ReportSeg(_, rpt, cp, upper, lower, claims) => [rpt, cp, upper, lower, |claims|] + ClaimFields(claims)
    case AckSeg(_, rpt) => [rpt]
    case CancelSeg(_, _) => []
  }

  function Tail(s: Segment): seq<byte> {
    match s
    case DataSeg(_, _, _, _, _, payload) => payload
    case CancelSeg(_, reason) => [reason]
    case _ => []
  }

  function Body(s: Segment): seq<byte> {
    FieldsBytes(ContentFields(s)) + Tail(s)
  }

  function Wire(s: Segment): seq<byte> {
    HeaderBytes(s.hdr) + Body(s)
  }

  /** When the encoder accepts the segment for a buffer of the given size. */
  predicate Fits(s: Segment, size: nat) {
    Encodable([s.hdr.engine, s.hdr.session] + ContentFields(s)) && |Wire(s)| <= size
  }

  /** When the peer's decoder accepts what the encoder wrote. */
  predicate Decodable(s: Segment) {
    Small([s.hdr.engine, s.hdr.session]) && Small(ContentFields(s)) && |Body(s)| <= SEGMENT_BUF
  }

  // ---- Decoding ----

  datatype Framed = Framed(hdr: Header, body: seq<byte>)

  /** Skips n header extensions: tag, length, and that many octets each. */
  function SkipExtensions(buf: seq<byte>, n: nat): Option<seq<byte>>
    decreases n
  {
    if n == 0 then Some(buf)
    else
      match Fields(buf, 2)
      case None => None
      case Some(p) =>
        FieldsCount(buf, 2);
        if p.fields[1] > |p.rest| then None else SkipExtensions(p.rest[p.fields[1]..], n - 1)
  }

  function DecodeHeader(buf: seq<byte>): Option<Framed> {
    if |buf| < 4 || Reserved(buf[0] % 16) then None
    else
      match Fields(buf[1..], 2)
      case None => None
      case Some(p) =>
        if |p.rest| < 2 then None
        else
          FieldsCount(buf[1..], 2);
          match SkipExtensions(p.rest[2..], p.rest[0])
          case None => None
          case Some(body) =>
            if |body| > SEGMENT_BUF then None
            else Some(Framed(Header(buf[0] / 16, buf[0] % 16, p.fields[0], p.fields[1], p.rest[0], p.rest[1]), body))
  }

  function DecodeData(h: Header, body: seq<byte>): Option<Segment> {
    var k := if IsCheckpoint(h.kind) then 5 else 3;
    match Fields(body, k)
    case None => None
    case Some(p) =>
      FieldsCount(body, k);
      if |p.rest| < p.fields[2] then None
      else
        var (cp, rpt) := if k == 5 then (p.fields[3], p.fields[4]) else (0, 0);
        Some(DataSeg(h, p.fields[0], p.fields[1], cp, rpt, p.rest[..p.fields[2]]))
  }

  function DecodeReport(h: Header, body: seq<byte>): Option<Segment> {
    hide Fields, Small;
    match Fields(body, 5)
    case None => None
    case Some(p) =>
      FieldsCount(body, 5);
      if p.fields[4] > MAX_CLAIMS then None
      else
        match Fields(p.rest, 2 * p.fields[4])
        case None => None
        case Some(q) =>
          FieldsCount(p.rest, 2 * p.fields[4]);
          Some(ReportSeg(h, p.fields[0], p.fields[1], p.fields[2], p.fields[3], ClaimsOf(q.fields)))
  }

  function DecodeAck(h: Header, body: seq<byte>): Option<Segment> {
    match Fields(body, 1)
    case None => None
    case Some(p) => FieldsCount(body, 1); Some(AckSeg(h, p.fields[0]))
  }

  function DecodeCancel(h: Header, body: seq<byte>): Option<Segment> {
    if |body| < 1 then None else Some(CancelSeg(h, body[0]))
  }

  /** The content decoder that goes with a type octet. */
  function DecodeContent(h: Header, body: seq<byte>): Option<Segment>
    requires !Reserved(h.kind) && h.kind < 16
  {
    if h.kind <= GREEN_DATA_EOB then DecodeData(h, body)
    else if h.kind == REPORT then DecodeReport(h, body)
    else if h.kind == REPORT_ACK then DecodeAck(h, body)
    else DecodeCancel(h, body)
  }

  // ---- Round trip ----

  lemma HeaderRoundTrip(h: Header, body: seq<byte>)
    requires h.version < 16 && h.kind < 16 && !Reserved(h.kind) && h.hdrExt == 0
    ensures DecodeHeader(HeaderBytes(h) + body)
         == if Small([h.engine, h.session]) && |body| <= SEGMENT_BUF then Some(Framed(h, body)) else None
  {
    var rest := [h.hdrExt, h.trailerExt] + body;
    var buf := HeaderBytes(h) + body;
    HeaderLayout(h, body, rest);
    FieldsRoundTrip([h.engine, h.session], rest);
    assert SkipExtensions(body, 0) == Some(body);
    HeaderDecode(h, body, body, rest, buf);
  }

  lemma HeaderDecode(h: Header, after: seq<byte>, body: seq<byte>, rest: seq<byte>, buf: seq<byte>)
    requires h.version < 16 && h.kind < 16 && !Reserved(h.kind) && SkipExtensions(after, h.hdrExt) == Some(body)
    requires |buf| >= 4 && buf[0] == TypeOctet(h) && rest == [h.hdrExt, h.trailerExt] + after
    requires Fields(buf[1..], 2) == if Small([h.engine, h.session]) then Some(Parsed([h.engine, h.session], rest)) else None
    ensures DecodeHeader(buf)
         == if Small([h.engine, h.session]) && |body| <= SEGMENT_BUF then Some(Framed(h, body)) else None
  {
    TypeBack(h);
    hide Fields, FieldsBytes, SkipExtensions, TypeOctet, Small;
    assert rest[2..] == after;
  }

  lemma TypeBack(h: Header)
    requires h.version < 16 && h.kind < 16
    ensures TypeOctet(h) / 16 == h.version && TypeOctet(h) % 16 == h.kind
  {
  }

  lemma HeaderLayout(h: Header, body: seq<byte>, rest: seq<byte>)
    requires rest == [h.hdrExt, h.trailerExt] + body
    ensures var buf := HeaderBytes(h) + body;
            |buf| >= 4 && buf[0] == TypeOctet(h) && buf[1..] == FieldsBytes([h.engine, h.session]) + rest
  {
    TwoFieldsLength(h.engine, h.session);
  }

  lemma TwoFieldsLength(a: nat, b: nat)
    ensures |FieldsBytes([a, b])| >= 2
  {
    assert [a, b][1..] == [b];
  }

  // ---- Header extensions ----

  /** A header extension as a peer may write one: a tag, a length, and that many octets. */
  datatype Extension = Extension(tag: nat, value: seq<byte>)

  function ExtensionBytes(xs: seq<Extension>): seq<byte> {
    if xs == [] then [] else FieldsBytes([xs[0].tag, |xs[0].value|]) + xs[0].value + ExtensionBytes(xs[1..])
  }

  ghost predicate ShortExtensions(xs: seq<Extension>) {
    forall i :: 0 <= i < |xs| ==> Small([xs[i].tag, |xs[i].value|])
  }

  /** Extensions are skipped, each by its own length, and nothing of what follows them is. */
  lemma {:induction false} ExtensionsSkipped(xs: seq<Extension>, body: seq<byte>)
    requires ShortExtensions(xs)
    ensures SkipExtensions(ExtensionBytes(xs) + body, |xs|) == Some(body)
  {
    if xs == [] {
      assert [] + body == body;
    } else {
      hide Fields, FieldsBytes, Small;
      var x, rest := xs[0], ExtensionBytes(xs[1..]) + body;
      FieldsRoundTrip([x.tag, |x.value|], x.value + rest);
      FourParts(FieldsBytes([x.tag, |x.value|]), x.value, ExtensionBytes(xs[1..]), body);
      assert (x.value + rest)[|x.value|..] == rest;
      ExtensionsSkipped(xs[1..], body);
    }
  }

  lemma FourParts(a: seq<byte>, b: seq<byte>, c: seq<byte>, d: seq<byte>)
    ensures a + b + c + d == a + (b + (c + d))
  {
  }

  /** A header that announces extensions is read back with the body that follows them. */
  lemma ExtendedHeader(h: Header, xs: seq<Extension>, body: seq<byte>)
    requires h.version < 16 && h.kind < 16 && !Reserved(h.kind) && h.hdrExt == |xs| && ShortExtensions(xs)
    ensures DecodeHeader(HeaderBytes(h) + (ExtensionBytes(xs) + body))
         == if Small([h.engine, h.session]) && |body| <= SEGMENT_BUF then Some(Framed(h, body)) else None
  {
    var after := ExtensionBytes(xs) + body;
    var rest := [h.hdrExt, h.trailerExt] + after;
    HeaderLayout(h, after, rest);
    FieldsRoundTrip([h.engine, h.session], rest);
    ExtensionsSkipped(xs, body);
    HeaderDecode(h, after, body, rest, HeaderBytes(h) + after);
  }

  lemma SmallAppend(vs: seq<nat>, ws: seq<nat>)
    ensures Small(vs + ws) <==> Small(vs) && Small(ws)
  {
    assert forall i :: 0 <= i < |vs| ==> (vs + ws)[i] == vs[i];
    assert forall i :: 0 <= i < |ws| ==> (vs + ws)[|vs| + i] == ws[i];
  }

  // ---- Content ----

  function WithHeader(s: Segment, h: Header): Segment {
    match s
    case DataSeg(_, service, offset, cp, rpt, payload) => DataSeg(h, service, offset, cp, rpt, payload)
    case ReportSeg(_, rpt, cp, upper, lower, claims) => ReportSeg(h, rpt, cp, upper, lower, claims)
    case AckSeg(_, rpt) => AckSeg(h, rpt)
    case CancelSeg(_, reason) => CancelSeg(h, reason)
  }

  lemma DataRead(s: Segment, h: Header, extra: seq<byte>)
    requires s.DataSeg? && WellFormed(s) && h.kind == s.hdr.kind
    ensures DecodeData(h, Body(s) + extra) == if Small(ContentFields(s)) then Some(WithHeader(s, h)) else None
  {
    var vs := ContentFields(s);
    assert vs[..3] == [s.service, s.offset, |s.payload|];
    assert IsCheckpoint(s.hdr.kind) ==> |vs| == 5 && vs[3] == s.cpSerial && vs[4] == s.rptSerial;
    assert vs[2] == vs[..3][2];
    Assoc(FieldsBytes(vs), s.payload, extra);
    FieldsRoundTrip(vs, s.payload + extra);
    assert (s.payload + extra)[..|s.payload|] == s.payload;
    hide FieldsBytes, Fields, Small;
  }

  lemma ReportRead(s: Segment, h: Header, extra: seq<byte>)
    requires s.ReportSeg? && WellFormed(s)
    ensures DecodeReport(h, Body(s) + extra) == if Small(ContentFields(s)) then Some(WithHeader(s, h)) else None
  {
    var head := [s.rptSerial, s.cpSerial, s.upper, s.lower, |s.claims|];
    var cf := ClaimFields(s.claims);
    assert ContentFields(s) == head + cf;
    FieldsAppend(head, cf);
    assert Body(s) == FieldsBytes(head) + FieldsBytes(cf);
    Assoc(FieldsBytes(head), FieldsBytes(cf), extra);
    FieldsRoundTrip(head, FieldsBytes(cf) + extra);
    FieldsRoundTrip(cf, extra);
    ClaimsOfFields(s.claims);
    SmallAppend(head, cf);
    hide FieldsBytes, Fields, Small;
  }

  /** Octets after the content, such as trailer extensions, are not looked at. */
  lemma ContentRead(s: Segment, h: Header, extra: seq<byte>)
    requires WellFormed(s) && h.kind == s.hdr.kind
    ensures DecodeContent(h, Body(s) + extra) == if Small(ContentFields(s)) then Some(WithHeader(s, h)) else None
  {
    match s
    case DataSeg(_, _, _, _, _, _) => DataRead(s, h, extra);
    case ReportSeg(_, _, _, _, _, _) => ReportRead(s, h, extra);
    case AckSeg(_, rpt) => FieldsRoundTrip([rpt], extra); assert Body(s) == FieldsBytes([rpt]);
    case CancelSeg(_, reason) => assert Body(s) == [reason];
  }

  /**
   * Every segment the engine can build is read back field for field exactly when the identifiers and
   * numbers in it are below 2^63 and its body fits the receiver's buffer; otherwise it is refused.
   */
  lemma SegmentRoundTrip(s: Segment)
    requires WellFormed(s)
    ensures Small([s.hdr.engine, s.hdr.session]) && |Body(s)| <= SEGMENT_BUF
            ==> DecodeHeader(Wire(s)) == Some(Framed(s.hdr, Body(s)))
    ensures !(Small([s.hdr.engine, s.hdr.session]) && |Body(s)| <= SEGMENT_BUF) ==> DecodeHeader(Wire(s)) == None
    ensures DecodeContent(s.hdr, Body(s)) == if Small(ContentFields(s)) then Some(s) else None
  {
    HeaderRoundTrip(s.hdr, Body(s));
    ContentRead(s, s.hdr, []);
    assert Body(s) + [] == Body(s);
    hide Body, DecodeContent;
  }

  // ---- Room in the 512-octet buffers ----

  lemma {:induction false} SmallFieldsFit(vs: seq<nat>)
    requires Small(vs)
    ensures Encodable(vs) && |FieldsBytes(vs)| <= 9 * |vs|
  {
    if vs != [] {
      Sdnv.EncodeFitsTen(vs[0]);
      SmallFieldsFit(vs[1..]);
      assert forall i :: 0 < i < |vs| ==> vs[i] == vs[1..][i - 1];
    }
  }

  lemma EncodableBoth(vs: seq<nat>, ws: seq<nat>)
    requires Encodable(vs) && Encodable(ws)
    ensures Encodable(vs + ws)
  {
  }

  /**
   * Nothing with numbers below 2^63 is silently lost to a full buffer: every report of up to sixteen claims,
   * every acknowledgement and cancel, and every data segment of at most 400 octets, is encoded by the sender
   * and decoded by the receiver.
   */
  lemma FitsBothWays(s: Segment)
    requires WellFormed(s) && Small([s.hdr.engine, s.hdr.session]) && Small(ContentFields(s))
    requires s.DataSeg? ==> |s.payload| <= 400
    ensures Fits(s, SEGMENT_BUF) && Decodable(s)
  {
    SmallFieldsFit([s.hdr.engine, s.hdr.session]);
    SmallFieldsFit(ContentFields(s));
    EncodableBoth([s.hdr.engine, s.hdr.session], ContentFields(s));
    assert |HeaderBytes(s.hdr)| <= 21;
    assert |ContentFields(s)| <= 37;
    assert |Body(s)| <= 9 * |ContentFields(s)| + |Tail(s)|;
  }
}
