/**
 * Report rounds through both engines' own entry points: a report received as octets, the sender's answer
 * received segment by segment, and the report the last of those segments makes the receiver write. One or
 * two rounds end in the delivery of the block.
 */
module LtpRound {
  import opened Bytes
  import opened ClaimMap
  import opened ClaimRoom
  import opened LtpSegment
  import opened LtpState
  import opened LtpSegmentation
  import opened LtpSteps
  import opened TwoPartyInvariant
  import opened TwoPartySteps
  import opened LtpAnyOrder
  import opened LtpConvergence
  import opened Sdnv

  /** The largest MTU whose segments always fit the 512-octet buffers. */
  const ROUND_MTU := 400

  /** The octets of each segment, received one after another. */
  ghost function ReceiveAll(e: Engine, ss: seq<Segment>, now: int): Effect
    decreases |ss|
  {
    if ss == [] then Nothing(e)
    else
      var f := Process(e, Wire(ss[0]), now);
      var g := ReceiveAll(f.engine, ss[1..], now);
      Effect(g.engine, f.sent + g.sent, f.delivered + g.delivered)
  }

  /** Both engines after a round, what the receiver wrote in it, and what it delivered. */
  datatype Rounded = Rounded(sender: Engine, receiver: Engine, reports: seq<Segment>, delivered: seq<Delivery>)

  /** The sender receives a report; the receiver receives everything the sender writes in answer. */
  ghost function ReportRound(sender: Engine, receiver: Engine, report: Segment, now: int): Rounded {
    var f := Process(sender, Wire(report), now);
    var g := ReceiveAll(receiver, f.sent, now);
    Rounded(f.engine, g.engine, g.sent, g.delivered)
  }

  ghost predicate Sending(x: Export, b: seq<byte>) {
    x.len == |b| && x.Block() == b
  }

  /** The sender's slot for the block, found under its own identifier. */
  ghost predicate Ready(e: Engine, j: nat, b: seq<byte>) {
    && j < |e.exports| && j == FindOwnExport(e.exports, e.localId, e.exports[j].session)
    && Sending(e.exports[j], b) && 0 < e.exports[j].mtu <= ROUND_MTU
  }

  /** An open import session of the sender's session, told where the block ends, not yet complete. */
  ghost predicate Open(e: Engine, k: nat, x: Export, b: seq<byte>) {
    && k < |e.imports| && k == FindImport(e.imports, x.engine, x.session)
    && var m := e.imports[k];
       && m.active && !m.complete && !m.delivered && m.len == |b| > 0
       && EndBy(m.claims, |b|) && !Full(m.claims, |b|) && Faithful(b, m)
  }

  /** Identifiers, and the serials of this many more rounds, are below 2^63: what the decoders take. */
  ghost predicate Numbered(sender: Engine, x: Export, receiver: Engine, m: Import, rounds: nat) {
    && sender.localId < INT64_LIMIT && receiver.localId < INT64_LIMIT
    && x.engine < INT64_LIMIT && x.session < INT64_LIMIT
    && x.nextCp + rounds <= INT64_LIMIT && m.nextRpt + rounds <= INT64_LIMIT
  }

  /** The report of a session's whole block so far. */
  ghost function RoundReport(id: nat, n: nat, rpt: nat, cp: nat, len: nat, claims: Claims): Segment {
    ReportSeg(Header(0, REPORT, id, n, 0, 0), rpt, cp, len, 0, claims)
  }

  /** A report of what slot k has claimed, whatever serials it carries. */
  ghost predicate Reports(e: Engine, k: nat, report: Segment) {
    && k < |e.imports| && report.ReportSeg?
    && report.rptSerial < INT64_LIMIT && report.cpSerial < INT64_LIMIT
    && var m := e.imports[k];
       report == RoundReport(e.localId, m.session, report.rptSerial, report.cpSerial, m.len, m.claims)
  }

  // ---- Everything written in a round is encoded and decoded ----

  lemma DataFits(x: Export, b: seq<byte>, kind: nat, r: Claim, serial: nat)
    requires Sending(x, b) && kind <= RED_DATA_EORP_CP && r.End() <= |b| && r.length <= ROUND_MTU
    requires IsCheckpoint(kind) || serial == 0
    requires x.engine < INT64_LIMIT && x.session < INT64_LIMIT && serial < INT64_LIMIT
    ensures var s := DataSegment(x, kind, r, serial);
            WellFormed(s) && Fits(s, SEGMENT_BUF) && Decodable(s) && s.payload == b[r.offset..r.End()]
  {
    hide Fits, Decodable;
    SliceOk(b, x, r);
    FitsBothWays(DataSegment(x, kind, r, serial));
  }

  lemma {:induction false} SmallClaims(claims: seq<Claim>, len: nat)
    requires EndBy(claims, len) && len < INT64_LIMIT
    ensures Small(ClaimFields(claims))
  {
    if claims != [] {
      assert forall i :: 0 <= i < |claims[1..]| ==> claims[1..][i] == claims[i + 1];
      SmallClaims(claims[1..], len);
      SmallAppend([claims[0].offset, claims[0].length], ClaimFields(claims[1..]));
    }
  }

  lemma ReportFits(id: nat, n: nat, rpt: nat, cp: nat, len: nat, claims: Claims)
    requires id < INT64_LIMIT && n < INT64_LIMIT && rpt < INT64_LIMIT && cp < INT64_LIMIT
    requires len <= MAX_BLOCK_SIZE && EndBy(claims, len)
    ensures var s := RoundReport(id, n, rpt, cp, len, claims);
            WellFormed(s) && Fits(s, SEGMENT_BUF) && Decodable(s)
  {
    ReportFitsUpTo(id, n, rpt, cp, len, len, claims);
  }

  lemma ReportFitsUpTo(id: nat, n: nat, rpt: nat, cp: nat, upper: nat, len: nat, claims: Claims)
    requires id < INT64_LIMIT && n < INT64_LIMIT && rpt < INT64_LIMIT && cp < INT64_LIMIT
    requires upper <= MAX_BLOCK_SIZE && len <= MAX_BLOCK_SIZE && EndBy(claims, len)
    ensures var s := RoundReport(id, n, rpt, cp, upper, claims);
            WellFormed(s) && Fits(s, SEGMENT_BUF) && Decodable(s)
  {
    hide Fits, Decodable;
    SmallClaims(claims, len);
    SmallAppend([rpt, cp, upper, 0, |claims|], ClaimFields(claims));
    FitsBothWays(RoundReport(id, n, rpt, cp, upper, claims));
  }

  lemma AckFits(e: Engine, s: Segment)
    requires s.ReportSeg? && e.localId < INT64_LIMIT && s.hdr.session < INT64_LIMIT && s.rptSerial < INT64_LIMIT
    ensures WellFormed(AckOf(e, s)) && Fits(AckOf(e, s), SEGMENT_BUF) && Decodable(AckOf(e, s))
  {
    hide Fits, Decodable;
    FitsBothWays(AckOf(e, s));
  }

  // ---- One segment of the block ----

  /**
   * The receiver has taken ranges that leave it with these claims: it delivers the block if that is all of
   * it, and otherwise goes on with the session open.
   */
  ghost predicate Took(id: nat, f: Effect, k: nat, x: Export, b: seq<byte>, claims: Claims, rpt: nat) {
    && f.engine.localId == id
    && if Full(claims, |b|) then f.delivered == [Delivery(x.engine, x.session, b)]
       else
         f.delivered == [] && Open(f.engine, k, x, b) && f.engine.imports[k].claims == claims
         && f.engine.imports[k].nextRpt == rpt
  }

  lemma TookAll(id: nat, f: Effect, k: nat, x: Export, b: seq<byte>, claims: Claims, rpt: nat)
    requires Took(id, f, k, x, b, claims, rpt) && Full(claims, |b|)
    ensures f.delivered == [Delivery(x.engine, x.session, b)]
  {
  }

  lemma TookPart(id: nat, f: Effect, k: nat, x: Export, b: seq<byte>, claims: Claims, rpt: nat)
    requires Took(id, f, k, x, b, claims, rpt) && !Full(claims, |b|)
    ensures f.engine.localId == id && f.delivered == [] && Open(f.engine, k, x, b)
    ensures k < |f.engine.imports| && f.engine.imports[k].claims == claims && f.engine.imports[k].nextRpt == rpt
  {
  }

  lemma AcceptedRange(m0: Import, b: seq<byte>, kind: nat, r: Claim, payload: seq<byte>)
    requires Faithful(b, m0) && EndBy(m0.claims, |b|) && m0.len == |b| > 0 && !m0.complete && !m0.delivered
    requires r.End() <= |b| && payload == b[r.offset..r.End()]
    requires kind == RED_DATA_EORP_CP ==> r.End() == |b|
    ensures var m := Accept(m0, kind, r.offset, payload);
            && m.claims == AddClaim(m0.claims, r.offset, r.length)
            && Faithful(b, m) && EndBy(m.claims, |b|) && m.len == |b| && !m.delivered
            && (m.complete <==> Full(m.claims, |b|))
  {
    hide AddClaim, Full, Covers;
    FaithfulStep(b, m0, kind, r.offset, payload);
    AddClaimAt(m0.claims, r.offset, r.length, (x: nat) => true, |b|);
  }

  lemma SameSlot(imports: seq<Import>, k: nat, m: Import, engine: nat, session: nat)
    requires k < |imports| && k == FindImport(imports, engine, session)
    requires m.active && m.engine == engine && m.session == session
    ensures FindImport(imports[k := m], engine, session) == k
  {
    var u := imports[k := m];
    assert u[k] == m && forall i :: 0 <= i < k ==> u[i] == imports[i];
  }

  /**
   * A segment of the block received as octets, its range claimed or dropped: nothing but the block is ever
   * delivered, a plain segment is not answered, and a checkpoint is answered by one report of the new claims.
   */
  lemma ReceiveOne(e: Engine, k: nat, x: Export, b: seq<byte>, kind: nat, r: Claim, serial: nat, now: int)
    requires Open(e, k, x, b) && Sending(x, b) && kind <= RED_DATA_EORP_CP
    requires r.length > 0 && r.End() <= |b| && r.length <= ROUND_MTU && (kind == RED_DATA_EORP_CP ==> r.End() == |b|)
    requires IsCheckpoint(kind) || serial == 0
    requires x.engine < INT64_LIMIT && x.session < INT64_LIMIT && serial < INT64_LIMIT
    requires e.localId < INT64_LIMIT && e.imports[k].nextRpt < INT64_LIMIT
    ensures var f := Process(e, Wire(DataSegment(x, kind, r, serial)), now);
            var claims := AddClaim(e.imports[k].claims, r.offset, r.length);
            var rpt := e.imports[k].nextRpt;
            && Took(e.localId, f, k, x, b, claims, if IsCheckpoint(kind) then rpt + 1 else rpt)
            && f.sent == if IsCheckpoint(kind) then [RoundReport(e.localId, x.session, rpt, serial, |b|, claims)]
                         else []
  {
    hide Process, Wire, Fits, Decodable;
    var s := DataSegment(x, kind, r, serial);
    DataFits(x, b, kind, r, serial);
    ProcessWire(e, s, now);
    TakeRange(e, k, x, b, s, r, now);
  }

  lemma TakeRange(e: Engine, k: nat, x: Export, b: seq<byte>, s: Segment, r: Claim, now: int)
    requires Open(e, k, x, b) && r.End() <= |b|
    requires s.DataSeg? && s.hdr.kind <= RED_DATA_EORP_CP && s.hdr.engine == x.engine && s.hdr.session == x.session
    requires s.offset == r.offset && s.payload == b[r.offset..r.End()] && s.cpSerial < INT64_LIMIT
    requires s.hdr.kind == RED_DATA_EORP_CP ==> r.End() == |b|
    requires e.localId < INT64_LIMIT && x.session < INT64_LIMIT && e.imports[k].nextRpt < INT64_LIMIT
    ensures var f := HandleData(e, s, now);
            var claims := AddClaim(e.imports[k].claims, r.offset, r.length);
            var rpt := e.imports[k].nextRpt;
            && Took(e.localId, f, k, x, b, claims, if IsCheckpoint(s.hdr.kind) then rpt + 1 else rpt)
            && f.sent == if IsCheckpoint(s.hdr.kind)
                         then [RoundReport(e.localId, x.session, rpt, s.cpSerial, |b|, claims)] else []
  {
    hide AddClaim, Full, Covers, Fits, Accept, EndBy, Faithful, ArmReport;
    var m0 := e.imports[k];
    AcceptedRange(m0, b, s.hdr.kind, r, s.payload);
    AcceptFrame(m0, s.hdr.kind, r.offset, s.payload);
    var m := Accept(m0, s.hdr.kind, r.offset, s.payload);
    FaithfulSize(b, m0);
    ReportFits(e.localId, x.session, m.nextRpt, s.cpSerial, |b|, m.claims);
    if Full(m.claims, |b|) {
      FaithfulFull(b, m);
    } else {
      SameSlot(e.imports, k, Settle(m, s.hdr.kind), x.engine, x.session);
      FaithfulSame(b, m, Settle(m, s.hdr.kind));
    }
  }

  /** What accepting a segment leaves alone. */
  lemma AcceptFrame(m0: Import, kind: nat, offset: nat, payload: seq<byte>)
    requires offset + |payload| <= MAX_BLOCK_SIZE
    ensures var m := Accept(m0, kind, offset, payload);
            m.active == m0.active && m.engine == m0.engine && m.session == m0.session && m.nextRpt == m0.nextRpt
  {
  }

  lemma FaithfulSize(b: seq<byte>, m: Import)
    requires Faithful(b, m)
    ensures |b| <= MAX_BLOCK_SIZE
  {
  }

  lemma FaithfulFull(b: seq<byte>, m: Import)
    requires Faithful(b, m) && Full(m.claims, |b|)
    ensures m.data[..|b|] == b
  {
    FullData(b, m.data, m.claims);
  }

  lemma FaithfulSame(b: seq<byte>, m: Import, m': Import)
    requires Faithful(b, m) && m'.claims == m.claims && m'.data == m.data
    ensures Faithful(b, m')
  {
  }

  // ---- The sender's answer, segment by segment ----

  /** Ranges of the block that nothing claims yet, in the order they are repeated. */
  ghost predicate ToRepeat(m: Claims, ps: seq<Claim>, len: nat) {
    && Ascending(ps) && Within(ps, 0, len) && NoLongerThan(ps, ROUND_MTU)
    && forall y: nat :: Covers(ps, y) ==> !Covers(m, y)
  }

  lemma FirstToRepeat(m: Claims, ps: seq<Claim>, len: nat)
    requires ps != [] && ToRepeat(m, ps, len)
    ensures var m1 := AddClaim(m, ps[0].offset, ps[0].length);
            && ToRepeat(m1, ps[1..], len) && ps[0].End() <= len && 0 < ps[0].length <= ROUND_MTU
            && (|ps| > 1 ==> !Full(m1, len))
  {
    hide AddClaim, Full;
    TailOfAscending(ps, 0, len);
    assert forall i :: 0 <= i < |ps[1..]| ==> ps[1..][i] == ps[i + 1];
    var m1 := AddClaim(m, ps[0].offset, ps[0].length);
    forall y: nat | Covers(ps[1..], y) ensures !Covers(m1, y) {
      AddClaimCovers(m, ps[0].offset, ps[0].length, y);
    }
    if |ps| > 1 {
      NotYetFull(m1, ps[1..], len);
    }
  }

  lemma NotYetFull(m: Claims, ps: seq<Claim>, len: nat)
    requires ps != [] && ToRepeat(m, ps, len)
    ensures !Full(m, len)
  {
    assert Covers(ps, ps[0].offset) && ps[0].offset < ps[0].End() <= len;
    if Full(m, len) {
      FullCovers(m, len);
    }
  }

  lemma FirstSegment(x: Export, ps: seq<Claim>, serial: nat)
    requires ps != []
    ensures var ss := Segments(x, ps, RED_DATA_CP, serial);
            && (|ps| == 1 ==> Segments(x, ps[1..], RED_DATA_CP, serial) == [])
            && ss == [if |ps| == 1 then DataSegment(x, RED_DATA_CP, ps[0], serial) else DataSegment(x, RED_DATA, ps[0], 0)]
                     + Segments(x, ps[1..], RED_DATA_CP, serial)
  {
  }

  /**
   * All the missing ranges in turn, dropped or not: the claims are fed one after another, nothing is
   * delivered before the last of them, and that one is answered by the only report.
   */
  lemma {:induction false} ReceiveRepeated(e: Engine, k: nat, x: Export, b: seq<byte>, ps: seq<Claim>, serial: nat,
                                           now: int)
    requires Open(e, k, x, b) && Sending(x, b) && ps != [] && ToRepeat(e.imports[k].claims, ps, |b|)
    requires x.engine < INT64_LIMIT && x.session < INT64_LIMIT && serial < INT64_LIMIT
    requires e.localId < INT64_LIMIT && e.imports[k].nextRpt < INT64_LIMIT
    ensures var f := ReceiveAll(e, Segments(x, ps, RED_DATA_CP, serial), now);
            var claims := FeedAll(e.imports[k].claims, ps);
            var rpt := e.imports[k].nextRpt;
            && Took(e.localId, f, k, x, b, claims, rpt + 1)
            && f.sent == [RoundReport(e.localId, x.session, rpt, serial, |b|, claims)]
    decreases |ps|
  {
    var m := e.imports[k].claims;
    var kind := if |ps| == 1 then RED_DATA_CP else RED_DATA;
    var n := if |ps| == 1 then serial else 0;
    assert kind <= RED_DATA_EORP_CP && (IsCheckpoint(kind) <==> |ps| == 1) && (kind == RED_DATA_EORP_CP ==> false);
    var m1 := AddClaim(m, ps[0].offset, ps[0].length);
    var s := DataSegment(x, kind, ps[0], n);
    var ss := Segments(x, ps[1..], RED_DATA_CP, serial);
    var f := Process(e, Wire(s), now);
    hide *;
    FirstSegment(x, ps, serial);
    FirstToRepeat(m, ps, |b|);
    ReceiveOne(e, k, x, b, kind, ps[0], n, now);
    ReceiveFirst(e, s, ss, now);
    FeedFirst(m, ps);
    if |ps| > 1 {
      TookPart(e.localId, f, k, x, b, m1, e.imports[k].nextRpt);
      ReceiveRepeated(f.engine, k, x, b, ps[1..], serial, now);
    }
  }

  lemma ReceiveFirst(e: Engine, s: Segment, ss: seq<Segment>, now: int)
    ensures var f := Process(e, Wire(s), now);
            var g := ReceiveAll(f.engine, ss, now);
            var r := ReceiveAll(e, [s] + ss, now);
            && r.engine == g.engine
            && (f.sent == [] ==> r.sent == g.sent) && (f.delivered == [] ==> r.delivered == g.delivered)
            && (ss == [] ==> r == f)
  {
    hide Process, Wire;
    var f := Process(e, Wire(s), now);
    assert ([s] + ss)[1..] == ss;
    assert f.sent + [] == f.sent && f.delivered + [] == f.delivered;
  }

  lemma FeedFirst(m: Claims, ps: seq<Claim>)
    requires ps != []
    ensures FeedAll(m, ps) == FeedAll(AddClaim(m, ps[0].offset, ps[0].length), ps[1..])
    ensures |ps| == 1 ==> FeedAll(m, ps) == AddClaim(m, ps[0].offset, ps[0].length)
  {
    hide AddClaim;
  }

  // ---- One round ----

  /** The sender's tables after its answer: the block's session has used a checkpoint serial. */
  lemma StillReady(e: Engine, j: nat, b: seq<byte>, x1: Export)
    requires Ready(e, j, b) && x1 == e.exports[j].(nextCp := e.exports[j].nextCp + 1)
    ensures FindOwnExport(e.exports[j := x1], e.localId, x1.session) == j && Sending(x1, b)
  {
    var u := e.exports[j := x1];
    assert u[j] == x1 && forall i :: 0 <= i < j ==> u[i] == e.exports[i];
  }

  /** A report of open claims, received as octets, is answered by an acknowledgement and the missing ranges. */
  lemma Answer(sender: Engine, j: nat, b: seq<byte>, report: Segment, now: int)
    requires Ready(sender, j, b) && report.ReportSeg? && report.hdr.session == sender.exports[j].session
    requires WellFormed(report) && Decodable(report) && |b| <= MAX_BLOCK_SIZE
    requires Separated(report.claims) && EndBy(report.claims, |b|) && report.upper == |b| > 0 && report.lower == 0
    requires !Full(report.claims, |b|)
    requires sender.localId < INT64_LIMIT && report.rptSerial < INT64_LIMIT
    requires sender.exports[j].engine < INT64_LIMIT && sender.exports[j].session < INT64_LIMIT
    requires sender.exports[j].nextCp < INT64_LIMIT
    ensures var x := sender.exports[j];
            var ps := Asked(report.claims, |b|, x.mtu);
            var f := Process(sender, Wire(report), now);
            && ps != [] && ToRepeat(report.claims, ps, |b|)
            && f.sent == [AckOf(sender, report)] + Segments(x, ps, RED_DATA_CP, x.nextCp)
            && f.engine.localId == sender.localId && Ready(f.engine, j, b)
            && f.engine.exports[j] == x.(nextCp := x.nextCp + 1)
  {
    var x := sender.exports[j];
    var m: Claims := report.claims;
    var ps := Asked(m, |b|, x.mtu);
    assert ps == Missing(x, sender.config, m, 0, |b|);
    AskedToRepeat(m, |b|, x.mtu);
    assert Handle(sender, report, now) == HandleReport(sender, report, now);
    hide *;
    ProcessWire(sender, report, now);
    AckFits(sender, report);
    AnswerFits(x, b, m, ps);
    Resends(sender, j, b, report, ps, now);
  }

  lemma Resends(e: Engine, j: nat, b: seq<byte>, report: Segment, ps: seq<Claim>, now: int)
    requires Ready(e, j, b) && report.ReportSeg? && report.hdr.session == e.exports[j].session
    requires !Full(report.claims, |b|) && ps != []
    requires ps == Missing(e.exports[j], e.config, report.claims, report.lower, report.upper)
    requires Fits(AckOf(e, report), SEGMENT_BUF)
    requires AllFitting(Segments(e.exports[j], ps, RED_DATA_CP, e.exports[j].nextCp))
    ensures var x := e.exports[j];
            var f := HandleReport(e, report, now);
            && f.sent == [AckOf(e, report)] + Segments(x, ps, RED_DATA_CP, x.nextCp)
            && f.engine.localId == e.localId && Ready(f.engine, j, b)
            && f.engine.exports[j] == x.(nextCp := x.nextCp + 1)
  {
    hide Fits, Full, Missing, Segments, CancelTimer, ArmResent, EmitAll, AllFitting, AckOf;
    var x := e.exports[j];
    EmitAllFitting(Segments(x, ps, RED_DATA_CP, x.nextCp));
    StillReady(e, j, b, AfterResend(x, ps));
  }

  lemma AskedToRepeat(m: Claims, len: nat, mtu: nat)
    requires 0 < mtu <= ROUND_MTU && len > 0 && EndBy(m, len) && !Full(m, len)
    ensures Asked(m, len, mtu) != [] && ToRepeat(m, Asked(m, len, mtu), len)
  {
    hide Full, Asked, Covers;
    AskedExact(m, len, mtu);
    SomethingAsked(m, Asked(m, len, mtu), len);
  }

  lemma AnswerFits(x: Export, b: seq<byte>, m: Claims, ps: seq<Claim>)
    requires Sending(x, b) && ToRepeat(m, ps, |b|) && |b| <= MAX_BLOCK_SIZE
    requires x.engine < INT64_LIMIT && x.session < INT64_LIMIT && x.nextCp < INT64_LIMIT
    ensures AllFitting(Segments(x, ps, RED_DATA_CP, x.nextCp))
  {
    hide Fits, Decodable, DataSegment;
    forall i | 0 <= i < |ps|
      ensures Fits(DataSegment(x, RED_DATA_CP, ps[i], x.nextCp), SEGMENT_BUF)
      ensures Fits(DataSegment(x, RED_DATA, ps[i], 0), SEGMENT_BUF)
    {
      DataFits(x, b, RED_DATA_CP, ps[i], x.nextCp);
      DataFits(x, b, RED_DATA, ps[i], 0);
    }
  }

  ghost predicate AllFitting(ss: seq<Segment>) {
    forall i :: 0 <= i < |ss| ==> Fits(ss[i], SEGMENT_BUF)
  }

  lemma {:induction false} EmitAllFitting(ss: seq<Segment>)
    requires AllFitting(ss)
    ensures EmitAll(ss) == ss
  {
    if ss != [] {
      EmitAllFitting(ss[1..]);
    }
  }

  lemma SomethingAsked(m: Claims, ps: seq<Claim>, len: nat)
    requires len > 0 && EndBy(m, len) && !Full(m, len) && Together(m, ps, 0, len)
    ensures ps != []
  {
    BoundedCover(m, len);
    FullIffCovers(m, len);
    var y: nat :| y < len && !Covers(m, y);
    assert Covers(ps, y);
  }

  /** An acknowledgement touches nothing but the report timers. */
  lemma AckTaken(e: Engine, k: nat, x: Export, b: seq<byte>, ack: Segment, now: int)
    requires Open(e, k, x, b) && ack.AckSeg? && WellFormed(ack) && Decodable(ack)
    ensures var f := Process(e, Wire(ack), now);
            && f.sent == [] && f.delivered == [] && f.engine.localId == e.localId
            && f.engine.imports == e.imports && Open(f.engine, k, x, b)
  {
    hide Process, Wire, Decodable, CancelTimer;
    ProcessWire(e, ack, now);
  }

  /** The receiver's report of slot k, and the sender's slot it is about. */
  ghost predicate Matched(sender: Engine, receiver: Engine, j: nat, k: nat, b: seq<byte>, report: Segment, rounds: nat) {
    && Ready(sender, j, b) && Open(receiver, k, sender.exports[j], b) && Reports(receiver, k, report)
    && Numbered(sender, sender.exports[j], receiver, receiver.imports[k], rounds)
  }

  /** What a round leaves: one report of these claims, and the block delivered if they are all of it. */
  ghost predicate Advanced(r: Rounded, sender: Engine, receiver: Engine, j: nat, k: nat, b: seq<byte>, claims: Claims,
                           rounds: nat)
    requires j < |sender.exports| && k < |receiver.imports|
  {
    var x := sender.exports[j];
    && Ready(r.sender, j, b) && r.sender.localId == sender.localId && r.sender.exports[j] == x.(nextCp := x.nextCp + 1)
    && r.reports == [RoundReport(receiver.localId, x.session, receiver.imports[k].nextRpt, x.nextCp, |b|, claims)]
    && (Full(claims, |b|) ==> r.delivered == [Delivery(x.engine, x.session, b)])
    && (!Full(claims, |b|) ==>
          && r.delivered == [] && Matched(r.sender, r.receiver, j, k, b, r.reports[0], rounds)
          && r.receiver.imports[k].claims == claims)
  }

  lemma ReceiveAnswer(e: Engine, k: nat, x: Export, b: seq<byte>, ack: Segment, ps: seq<Claim>, serial: nat, now: int)
    requires Open(e, k, x, b) && ack.AckSeg? && WellFormed(ack) && Decodable(ack)
    requires Sending(x, b) && ps != [] && ToRepeat(e.imports[k].claims, ps, |b|)
    requires x.engine < INT64_LIMIT && x.session < INT64_LIMIT && serial < INT64_LIMIT
    requires e.localId < INT64_LIMIT && e.imports[k].nextRpt < INT64_LIMIT
    ensures var f := ReceiveAll(e, [ack] + Segments(x, ps, RED_DATA_CP, serial), now);
            var claims := FeedAll(e.imports[k].claims, ps);
            var rpt := e.imports[k].nextRpt;
            && Took(e.localId, f, k, x, b, claims, rpt + 1)
            && f.sent == [RoundReport(e.localId, x.session, rpt, serial, |b|, claims)]
  {
    var ss := Segments(x, ps, RED_DATA_CP, serial);
    assert e.imports[k].nextRpt < INT64_LIMIT;
    hide *;
    AckTaken(e, k, x, b, ack, now);
    ReceiveFirst(e, ack, ss, now);
    ReceiveRepeated(Process(e, Wire(ack), now).engine, k, x, b, ps, serial, now);
  }

  lemma NextMatched(sender: Engine, receiver: Engine, j: nat, k: nat, b: seq<byte>, s1: Engine, f: Effect, claims: Claims,
                    rounds: nat)
    requires rounds >= 1 && Ready(sender, j, b) && Open(receiver, k, sender.exports[j], b)
    requires Numbered(sender, sender.exports[j], receiver, receiver.imports[k], rounds)
    requires Ready(s1, j, b) && s1.localId == sender.localId
    requires s1.exports[j] == sender.exports[j].(nextCp := sender.exports[j].nextCp + 1)
    requires Took(receiver.localId, f, k, sender.exports[j], b, claims, receiver.imports[k].nextRpt + 1) && !Full(claims, |b|)
    ensures Matched(s1, f.engine, j, k, b,
                    RoundReport(receiver.localId, sender.exports[j].session, receiver.imports[k].nextRpt,
                                sender.exports[j].nextCp, |b|, claims), rounds - 1)
  {
    hide Full, Faithful, Sending;
  }

  /** What the report and the map of the session say, spelled out. */
  lemma MatchedReport(sender: Engine, receiver: Engine, j: nat, k: nat, b: seq<byte>, report: Segment, rounds: nat)
    requires rounds >= 1 && Matched(sender, receiver, j, k, b, report, rounds)
    ensures var m := receiver.imports[k];
            && report.ReportSeg? && report.hdr.session == sender.exports[j].session && report.claims == m.claims
            && report.upper == |b| > 0 && report.lower == 0 && |b| <= MAX_BLOCK_SIZE && EndBy(m.claims, |b|)
            && !Full(m.claims, |b|) && WellFormed(report) && Decodable(report)
    ensures var ack := AckOf(sender, report); ack.AckSeg? && WellFormed(ack) && Decodable(ack)
  {
    hide Full, EndBy, Decodable, Fits, Covers;
    var m := receiver.imports[k];
    ReportFits(receiver.localId, sender.exports[j].session, report.rptSerial, report.cpSerial, |b|, m.claims);
    AckFits(sender, report);
  }

  /** The octets exchanged in a round. */
  lemma Exchanged(sender: Engine, receiver: Engine, j: nat, k: nat, b: seq<byte>, report: Segment, rounds: nat, now: int)
    requires rounds >= 1 && Matched(sender, receiver, j, k, b, report, rounds)
    ensures var x, rpt := sender.exports[j], receiver.imports[k].nextRpt;
            var claims := Round(receiver.imports[k].claims, |b|, x.mtu);
            var f := Process(sender, Wire(report), now);
            var g := ReceiveAll(receiver, f.sent, now);
            && Ready(f.engine, j, b) && f.engine.localId == sender.localId
            && f.engine.exports[j] == x.(nextCp := x.nextCp + 1)
            && Took(receiver.localId, g, k, x, b, claims, rpt + 1)
            && g.sent == [RoundReport(receiver.localId, x.session, rpt, x.nextCp, |b|, claims)]
  {
    MatchedReport(sender, receiver, j, k, b, report, rounds);
    var x, m := sender.exports[j], receiver.imports[k];
    assert Round(m.claims, |b|, x.mtu) == FeedAll(m.claims, Asked(m.claims, |b|, x.mtu));
    assert Numbered(sender, x, receiver, m, rounds) && Ready(sender, j, b) && Open(receiver, k, x, b);
    assert Sending(x, b);
    hide *;
    Answer(sender, j, b, report, now);
    ReceiveAnswer(receiver, k, x, b, AckOf(sender, report), Asked(m.claims, |b|, x.mtu), x.nextCp, now);
  }

  /**
   * One round: the sender repeats what the report leaves unclaimed, the receiver feeds it to its map and
   * writes one report of the result. Either that is the whole block, delivered once, or nothing has been
   * delivered and everything is in place for the next round.
   */
  lemma OneRound(sender: Engine, receiver: Engine, j: nat, k: nat, b: seq<byte>, report: Segment, rounds: nat, now: int)
    requires rounds >= 1 && Matched(sender, receiver, j, k, b, report, rounds)
    ensures var claims := Round(receiver.imports[k].claims, |b|, sender.exports[j].mtu);
            Advanced(ReportRound(sender, receiver, report, now), sender, receiver, j, k, b, claims, rounds - 1)
  {
    var claims := Round(receiver.imports[k].claims, |b|, sender.exports[j].mtu);
    hide *;
    RoundIs(sender, receiver, report, now);
    Exchanged(sender, receiver, j, k, b, report, rounds, now);
    var r := ReportRound(sender, receiver, report, now);
    Settles(sender, receiver, j, k, b, report, r.sender, Effect(r.receiver, r.reports, r.delivered), claims, rounds);
  }

  /** From the octets exchanged to what the round leaves. */
  lemma Settles(sender: Engine, receiver: Engine, j: nat, k: nat, b: seq<byte>, report: Segment, s1: Engine, g: Effect,
                claims: Claims, rounds: nat)
    requires rounds >= 1 && Matched(sender, receiver, j, k, b, report, rounds)
    requires Ready(s1, j, b) && s1.localId == sender.localId
    requires s1.exports[j] == sender.exports[j].(nextCp := sender.exports[j].nextCp + 1)
    requires Took(receiver.localId, g, k, sender.exports[j], b, claims, receiver.imports[k].nextRpt + 1)
    requires g.sent == [RoundReport(receiver.localId, sender.exports[j].session, receiver.imports[k].nextRpt,
                                    sender.exports[j].nextCp, |b|, claims)]
    ensures Advanced(Rounded(s1, g.engine, g.sent, g.delivered), sender, receiver, j, k, b, claims, rounds - 1)
  {
    var x, rpt := sender.exports[j], receiver.imports[k].nextRpt;
    hide *;
    MatchedParts(sender, receiver, j, k, b, report, rounds);
    if Full(claims, |b|) {
      TookAll(receiver.localId, g, k, x, b, claims, rpt + 1);
    } else {
      TookPart(receiver.localId, g, k, x, b, claims, rpt + 1);
      NextMatched(sender, receiver, j, k, b, s1, g, claims, rounds);
    }
    Conclude(Rounded(s1, g.engine, g.sent, g.delivered), sender, receiver, j, k, b, claims, rounds - 1);
  }

  lemma MatchedParts(sender: Engine, receiver: Engine, j: nat, k: nat, b: seq<byte>, report: Segment, rounds: nat)
    requires Matched(sender, receiver, j, k, b, report, rounds)
    ensures j < |sender.exports| && k < |receiver.imports|
    ensures Ready(sender, j, b) && Open(receiver, k, sender.exports[j], b)
    ensures Numbered(sender, sender.exports[j], receiver, receiver.imports[k], rounds)
  {
    hide Sending, Numbered, Reports, EndBy, Full, Faithful;
  }

  lemma RoundIs(sender: Engine, receiver: Engine, report: Segment, now: int)
    ensures var f := Process(sender, Wire(report), now);
            var g := ReceiveAll(receiver, f.sent, now);
            ReportRound(sender, receiver, report, now) == Rounded(f.engine, g.engine, g.sent, g.delivered)
  {
    hide Process, Wire, ReceiveAll;
  }

  lemma Conclude(r: Rounded, sender: Engine, receiver: Engine, j: nat, k: nat, b: seq<byte>, claims: Claims, rounds: nat)
    requires j < |sender.exports| && k < |receiver.imports|
    requires Ready(r.sender, j, b) && r.sender.localId == sender.localId
    requires r.sender.exports[j] == sender.exports[j].(nextCp := sender.exports[j].nextCp + 1)
    requires var x := sender.exports[j];
             r.reports == [RoundReport(receiver.localId, x.session, receiver.imports[k].nextRpt, x.nextCp, |b|, claims)]
    requires Full(claims, |b|) ==> r.delivered == [Delivery(sender.exports[j].engine, sender.exports[j].session, b)]
    requires !Full(claims, |b|) ==>
               r.delivered == [] && Matched(r.sender, r.receiver, j, k, b, r.reports[0], rounds)
               && k < |r.receiver.imports| && r.receiver.imports[k].claims == claims
    ensures Advanced(r, sender, receiver, j, k, b, claims, rounds)
  {
    hide Full, Ready, Matched, RoundReport;
  }

  // ---- Delivery ----

  /** How the map comes out of a round: complete exactly when the first repeated range was sure of room. */
  lemma RoundOutcome(sender: Engine, receiver: Engine, j: nat, k: nat, b: seq<byte>, report: Segment, rounds: nat)
    requires rounds >= 1 && Matched(sender, receiver, j, k, b, report, rounds)
    ensures var m, mtu := receiver.imports[k].claims, sender.exports[j].mtu;
            && (Full(Round(m, |b|, mtu), |b|) <==> RoomToStart(m, mtu))
            && Full(Round(Round(m, |b|, mtu), |b|, mtu), |b|)
            && EndBy(Round(m, |b|, mtu), |b|) && EndBy(Round(Round(m, |b|, mtu), |b|, mtu), |b|)
  {
    hide Full, Round, RoomToStart, EndBy, Faithful, Sending;
    var m, len, mtu := receiver.imports[k].claims, |b|, sender.exports[j].mtu;
    OneRoundIff(m, len, mtu);
    TwoRounds(m, len, mtu);
    RoundBounded(m, len, mtu);
    RoundBounded(Round(m, len, mtu), len, mtu);
  }

  lemma RoundBounded(m: Claims, len: nat, mtu: nat)
    requires mtu > 0 && len > 0 && EndBy(m, len)
    ensures EndBy(Round(m, len, mtu), len)
  {
    hide RoomToStart, Round;
    if RoomToStart(m, mtu) {
      RoundFills(m, len, mtu);
    } else {
      FirstRoundLeavesOne(m, len, mtu);
    }
  }

  /** One round delivers the block, once and byte for byte, exactly under the condition of OneRoundIff. */
  lemma RoundDelivers(sender: Engine, receiver: Engine, j: nat, k: nat, b: seq<byte>, report: Segment, now: int)
    requires Matched(sender, receiver, j, k, b, report, 1)
    ensures var x := sender.exports[j];
            ReportRound(sender, receiver, report, now).delivered
            == if RoomToStart(receiver.imports[k].claims, x.mtu) then [Delivery(x.engine, x.session, b)] else []
  {
    assert Ready(sender, j, b) && Open(receiver, k, sender.exports[j], b);
    hide Full, Round, RoomToStart, ReportRound, Ready, Open, Numbered, RoundReport, Matched;
    RoundOutcome(sender, receiver, j, k, b, report, 1);
    OneRound(sender, receiver, j, k, b, report, 1, now);
  }

  /** A report of a whole block completes the export session. */
  lemma FullReportCompletes(sender: Engine, j: nat, b: seq<byte>, id: nat, rpt: nat, cp: nat, claims: Claims, now: int)
    requires Ready(sender, j, b) && 0 < |b| <= MAX_BLOCK_SIZE && Full(claims, |b|) && EndBy(claims, |b|)
    requires id < INT64_LIMIT && sender.exports[j].session < INT64_LIMIT && rpt < INT64_LIMIT && cp < INT64_LIMIT
    ensures var f := Process(sender, Wire(RoundReport(id, sender.exports[j].session, rpt, cp, |b|, claims)), now);
            j < |f.engine.exports| && f.engine.exports[j].session == sender.exports[j].session
            && f.engine.exports[j].completed
  {
    hide Process, Wire, Decodable, Fits, Full, EndBy;
    ReportFits(id, sender.exports[j].session, rpt, cp, |b|, claims);
    ProcessWire(sender, RoundReport(id, sender.exports[j].session, rpt, cp, |b|, claims), now);
  }

  /** After a round that fills the map, its report makes the sender count the session as completed. */
  lemma RoundCompletes(sender: Engine, receiver: Engine, j: nat, k: nat, b: seq<byte>, report: Segment, rounds: nat,
                       now: int, later: int)
    requires rounds >= 1 && Matched(sender, receiver, j, k, b, report, rounds)
    requires var claims := Round(receiver.imports[k].claims, |b|, sender.exports[j].mtu);
             Full(claims, |b|) && EndBy(claims, |b|)
    ensures var r := ReportRound(sender, receiver, report, now);
            && r.delivered == [Delivery(sender.exports[j].engine, sender.exports[j].session, b)]
            && |r.reports| == 1 && Finished(r, j, sender.exports[j].session, later)
  {
    var x, m := sender.exports[j], receiver.imports[k];
    FaithfulSize(b, m);
    var claims := Round(m.claims, |b|, x.mtu);
    hide Full, Round, ReportRound, Ready, Open, RoundReport, EndBy, Process, Wire, Faithful;
    OneRound(sender, receiver, j, k, b, report, rounds, now);
    FullReportCompletes(ReportRound(sender, receiver, report, now).sender, j, b, receiver.localId, m.nextRpt, x.nextCp,
                        claims, later);
  }

  /** The sender receives the round's report and counts the session as completed. */
  ghost predicate Finished(r: Rounded, j: nat, session: nat, now: int)
    requires |r.reports| == 1
  {
    var e := Process(r.sender, Wire(r.reports[0]), now).engine;
    j < |e.exports| && e.exports[j].session == session && e.exports[j].completed
  }

  /**
   * If the first repeated range is sure of room the first round delivers the block; otherwise it delivers
   * nothing and ends in the one report whose round does. The report that goes with the delivery completes the
   * session at the sender.
   */
  ghost predicate DeliversInTwo(sender: Engine, receiver: Engine, j: nat, k: nat, b: seq<byte>, report: Segment, now: int,
                                second: int, later: int)
    requires j < |sender.exports| && k < |receiver.imports| && sender.exports[j].mtu > 0
  {
    var x, m := sender.exports[j], receiver.imports[k];
    var block := Delivery(x.engine, x.session, b);
    var r := ReportRound(sender, receiver, report, now);
    && r.reports == [RoundReport(receiver.localId, x.session, m.nextRpt, x.nextCp, |b|, Round(m.claims, |b|, x.mtu))]
    && if RoomToStart(m.claims, x.mtu) then r.delivered == [block] && Finished(r, j, x.session, later)
       else
         var r2 := ReportRound(r.sender, r.receiver, r.reports[0], second);
         && r.delivered == [] && r2.delivered == [block] && |r2.reports| == 1 && Finished(r2, j, x.session, later)
  }

  /** At most two rounds, from any map of an open session that knows where the block ends. */
  lemma TwoRoundsDeliver(sender: Engine, receiver: Engine, j: nat, k: nat, b: seq<byte>, report: Segment, now: int,
                         second: int, later: int)
    requires Matched(sender, receiver, j, k, b, report, 2)
    ensures DeliversInTwo(sender, receiver, j, k, b, report, now, second, later)
  {
    var x, m := sender.exports[j], receiver.imports[k];
    var r := ReportRound(sender, receiver, report, now);
    hide Full, Round, RoomToStart, ReportRound, Ready, Open, Numbered, RoundReport, Finished, EndBy, Matched;
    RoundOutcome(sender, receiver, j, k, b, report, 2);
    OneRound(sender, receiver, j, k, b, report, 2, now);
    if RoomToStart(m.claims, x.mtu) {
      RoundCompletes(sender, receiver, j, k, b, report, 2, now, later);
    } else {
      RoundCompletes(r.sender, r.receiver, j, k, b, r.reports[0], 1, second, later);
    }
  }

  // ---- The reports the receiver writes ----

  /** A checkpoint received in the open session is answered by a report such as the rounds start from. */
  lemma CheckpointReports(e: Engine, k: nat, x: Export, b: seq<byte>, kind: nat, r: Claim, serial: nat, now: int)
    requires Open(e, k, x, b) && Sending(x, b) && IsCheckpoint(kind)
    requires r.length > 0 && r.End() <= |b| && r.length <= ROUND_MTU && (kind == RED_DATA_EORP_CP ==> r.End() == |b|)
    requires x.engine < INT64_LIMIT && x.session < INT64_LIMIT && serial < INT64_LIMIT
    requires e.localId < INT64_LIMIT && e.imports[k].nextRpt < INT64_LIMIT
    ensures var f := Process(e, Wire(DataSegment(x, kind, r, serial)), now);
            && |f.sent| == 1
            && if f.delivered == [] then Open(f.engine, k, x, b) && Reports(f.engine, k, f.sent[0])
               else f.delivered == [Delivery(x.engine, x.session, b)]
  {
    hide Process, Wire, DataSegment, Full, AddClaim, EndBy, Faithful;
    ReceiveOne(e, k, x, b, kind, r, serial, now);
  }

  /** So is the expiry of its report timer, also before the session knows where its block ends. */
  lemma TimerReports(e: Engine, k: nat, t: Timer)
    requires t.kind == REPORT_TIMER && k < |e.imports| && k == FindImportByNumber(e.imports, t.session)
    requires EndBy(e.imports[k].claims, MAX_BLOCK_SIZE)
    requires e.localId < INT64_LIMIT && t.session < INT64_LIMIT && t.serial < INT64_LIMIT
    ensures var f := Resend(e, t); |f.sent| == 1 && f.engine == e && Reports(e, k, f.sent[0])
  {
    hide Fits, Decodable, EndBy;
    ReportFitsUpTo(e.localId, t.session, t.serial, 0, e.imports[k].len, MAX_BLOCK_SIZE, e.imports[k].claims);
  }
}
