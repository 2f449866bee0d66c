/** What the engine refuses, and what it then leaves alone; and what it reports as handled. */
module LtpRefused {
  import opened Bytes
  import opened ClaimMap
  import opened LtpSegment
  import opened LtpState
  import opened LtpSteps

  // ---- Truncated segments ----

  /** A run of fields cut short is refused, wherever the cut is. */
  lemma {:induction false} FieldsTruncated(vs: seq<nat>, k: nat)
    requires k < |FieldsBytes(vs)|
    ensures Fields(FieldsBytes(vs)[..k], |vs|) == None
  {
    hide Sdnv.Encode, Sdnv.Decode;
    var e, rest := Sdnv.Encode(vs[0]), FieldsBytes(vs[1..]);
    if k < |e| {
      assert FieldsBytes(vs)[..k] == e[..k];
      Sdnv.DecodeTruncated(vs[0], k);
    } else {
      var tail := rest[..k - |e|];
      assert FieldsBytes(vs)[..k] == e + tail;
      Sdnv.DecodeEncode(vs[0], tail);
      assert (e + tail)[|e|..] == tail;
      FieldsTruncated(vs[1..], k - |e|);
    }
  }

  lemma DataTruncated(s: Segment, k: nat)
    requires s.DataSeg? && WellFormed(s) && Small(ContentFields(s)) && k < |Body(s)|
    ensures DecodeData(s.hdr, Body(s)[..k]) == None
  {
    hide Fields, FieldsBytes, Small;
    var vs := ContentFields(s);
    var f := FieldsBytes(vs);
    assert |vs| == if IsCheckpoint(s.hdr.kind) then 5 else 3;
    assert vs[2] == |s.payload|;
    if k < |f| {
      assert Body(s)[..k] == f[..k];
      FieldsTruncated(vs, k);
    } else {
      assert Body(s)[..k] == f + s.payload[..k - |f|];
      FieldsRoundTrip(vs, s.payload[..k - |f|]);
    }
  }

  lemma ReportTruncated(s: Segment, k: nat)
    requires s.ReportSeg? && WellFormed(s) && Small(ContentFields(s)) && k < |Body(s)|
    ensures DecodeReport(s.hdr, Body(s)[..k]) == None
  {
    hide Fields, FieldsBytes, Small;
    var head, cf := [s.rptSerial, s.cpSerial, s.upper, s.lower, |s.claims|], ClaimFields(s.claims);
    var f, g := FieldsBytes(head), FieldsBytes(cf);
    FieldsAppend(head, cf);
    SmallAppend(head, cf);
    assert Body(s) == f + g;
    if k < |f| {
      assert Body(s)[..k] == f[..k];
      FieldsTruncated(head, k);
    } else {
      assert Body(s)[..k] == f + g[..k - |f|];
      FieldsRoundTrip(head, g[..k - |f|]);
      FieldsTruncated(cf, k - |f|);
    }
  }

  lemma AckTruncated(s: Segment, k: nat)
    requires s.AckSeg? && WellFormed(s) && k < |Body(s)|
    ensures DecodeAck(s.hdr, Body(s)[..k]) == None
  {
    assert Body(s) == FieldsBytes([s.rptSerial]);
    FieldsTruncated([s.rptSerial], k);
  }

  /** The kinds whose content is looked at. */
  predicate HasContent(kind: nat) {
    kind <= RED_DATA_EORP_CP || kind == REPORT || kind == REPORT_ACK || kind == CANCEL_BY_SENDER || kind == CANCEL_BY_RECVR
  }

  /** A segment whose content is cut short, anywhere, changes nothing and is not answered. */
  lemma TruncatedRefused(e: Engine, s: Segment, k: nat, now: int)
    requires WellFormed(s) && Decodable(s) && HasContent(s.hdr.kind) && k < |Body(s)|
    ensures Process(e, HeaderBytes(s.hdr) + Body(s)[..k], now) == Nothing(e)
  {
    hide FieldsBytes, Fields, HeaderBytes, DecodeHeader, HandleData, HandleReport, HandleCancel, Small;
    HeaderRoundTrip(s.hdr, Body(s)[..k]);
    match s
    case DataSeg(_, _, _, _, _, _) => DataTruncated(s, k);
    case ReportSeg(_, _, _, _, _, _) => ReportTruncated(s, k);
    case AckSeg(_, _) => AckTruncated(s, k);
    case CancelSeg(_, _) => NoReason(s);
  }

  lemma NoReason(s: Segment)
    requires s.CancelSeg?
    ensures |Body(s)| == 1
  {
  }

  // ---- Other refusals ----

  /** Green data, reserved types and anything shorter than a header change nothing and are not answered. */
  lemma UnknownRefused(e: Engine, buf: seq<byte>, now: int)
    requires |buf| < 4 || 3 <= buf[0] % 16 <= 7 || 10 <= buf[0] % 16 <= 11
    ensures Process(e, buf, now) == Nothing(e)
  {
    hide Fields, SkipExtensions, HandleData, HandleReport, HandleCancel, HandleAck;
  }

  /** A report of more than sixteen claims is refused, however it is made. */
  lemma CrowdedReportRefused(e: Engine, h: Header, rpt: nat, cp: nat, upper: nat, lower: nat, claims: seq<Claim>, now: int)
    requires h.version < 16 && h.hdrExt == 0 && h.kind == REPORT && |claims| > 16
    ensures Process(e, Wire(ReportSeg(h, rpt, cp, upper, lower, claims)), now) == Nothing(e)
  {
    var s := ReportSeg(h, rpt, cp, upper, lower, claims);
    var head, cf := [rpt, cp, upper, lower, |claims|], ClaimFields(claims);
    FieldsAppend(head, cf);
    FieldsRoundTrip(head, FieldsBytes(cf));
    hide FieldsBytes, Fields, HeaderBytes, DecodeHeader, HandleReport, Small;
    assert Body(s) == FieldsBytes(head) + FieldsBytes(cf);
    HeaderRoundTrip(h, Body(s));
  }

  /** The first free slot, and the session is not open. */
  ghost predicate Opens(ms: seq<Import>, k: nat, engine: nat, session: nat)
    requires k < |ms|
  {
    && !ms[k].active && (forall i :: 0 <= i < k ==> ms[i].active)
    && forall i :: 0 <= i < |ms| && ms[i].active ==> ms[i].engine != engine || ms[i].session != session
  }

  /** A segment that reaches beyond the session buffer is not taken: it opens its session, if there is room, and no more. */
  lemma OversizedRefused(e: Engine, s: Segment, now: int)
    requires s.DataSeg? && WellFormed(s) && s.hdr.kind <= RED_DATA_EORP_CP && Decodable(s)
    requires s.offset + |s.payload| > MAX_BLOCK_SIZE
    ensures var f := Process(e, Wire(s), now);
            && f.sent == [] && f.delivered == [] && f.engine == e.(imports := f.engine.imports) && |f.engine.imports| == |e.imports|
            && forall k :: 0 <= k < |e.imports| ==>
                 f.engine.imports[k] == if Opens(e.imports, k, s.hdr.engine, s.hdr.session)
                                        then OpenedImport(s.hdr.engine, s.hdr.session) else e.imports[k]
  {
    hide Process, Wire, Decodable;
    ProcessWire(e, s, now);
  }

  // ---- What is reported as handled ----

  /** The tables have a place for the segment. */
  ghost predicate Placed(e: Engine, s: Segment) {
    match s
    case DataSeg(h, _, offset, _, _, payload) =>
      && h.kind <= RED_DATA_EORP_CP && offset + |payload| <= MAX_BLOCK_SIZE
      && exists k :: 0 <= k < |e.imports|
                     && (!e.imports[k].active || (e.imports[k].engine == h.engine && e.imports[k].session == h.session))
    case ReportSeg(h, _, _, _, _, _) =>
      exists k :: 0 <= k < |e.exports| && e.exports[k].active && e.exports[k].engine == e.localId && e.exports[k].session == h.session
    case AckSeg(_, _) => true
    case CancelSeg(_, _) => true
  }

  /** A segment that decodes is reported as handled exactly when the tables have a place for it. */
  lemma AcceptedIff(e: Engine, s: Segment)
    requires WellFormed(s) && Decodable(s)
    ensures DecodeHeader(Wire(s)) == Some(Framed(s.hdr, Body(s)))
    ensures Accepted(e, s.hdr, Body(s)) <==> Placed(e, s)
  {
    SegmentRoundTrip(s);
    hide DecodeHeader, Wire, Fields, FieldsBytes, Body;
    match s
    case DataSeg(h, _, _, _, _, _) => SlotExists(e, h);
    case ReportSeg(h, _, _, _, _, _) => OwnExists(e, h.session);
    case AckSeg(_, _) =>
    case CancelSeg(_, _) => NoReason(s);
  }

  lemma SlotExists(e: Engine, h: Header)
    ensures ImportSlot(e, h) < |e.imports| <==>
            exists k :: 0 <= k < |e.imports|
                        && (!e.imports[k].active || (e.imports[k].engine == h.engine && e.imports[k].session == h.session))
  {
    var k := ImportSlot(e, h);
    if k < |e.imports| {
      assert !e.imports[k].active || (e.imports[k].engine == h.engine && e.imports[k].session == h.session);
    }
  }

  lemma OwnExists(e: Engine, session: nat)
    ensures FindOwnExport(e.exports, e.localId, session) < |e.exports| <==>
            exists k :: 0 <= k < |e.exports| && e.exports[k].active && e.exports[k].engine == e.localId && e.exports[k].session == session
  {
    var k := FindOwnExport(e.exports, e.localId, session);
    if k < |e.exports| {
      assert e.exports[k].active && e.exports[k].engine == e.localId && e.exports[k].session == session;
    }
  }

  /** What does not decode is not reported as handled. */
  lemma TruncatedNotAccepted(e: Engine, s: Segment, k: nat)
    requires WellFormed(s) && Decodable(s) && HasContent(s.hdr.kind) && k < |Body(s)|
    ensures !Accepted(e, s.hdr, Body(s)[..k])
  {
    hide FieldsBytes, Fields, Small;
    match s
    case DataSeg(_, _, _, _, _, _) => DataTruncated(s, k);
    case ReportSeg(_, _, _, _, _, _) => ReportTruncated(s, k);
    case AckSeg(_, _) => AckTruncated(s, k);
    case CancelSeg(_, _) => NoReason(s);
  }
}
