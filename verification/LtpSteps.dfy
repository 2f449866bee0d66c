/**
 * What each entry point of the engine does to its tables, as a function of the state before (ltp.c).
 * Times are nanoseconds on the monotonic clock and come in as parameters.
 */
module LtpSteps {
  import opened Bytes
  import opened ClaimMap
  import opened LtpSegment
  import opened LtpState
  import opened LtpSegmentation

  function Nothing(e: Engine): Effect {
    Effect(e, [], [])
  }

  // ---- Timers ----

  /** Nanoseconds in a millisecond and in a second. */
  const MS := 1_000_000
  const SECOND := 1_000_000_000

  function TimerDuration(c: Config): int {
    (2 * c.owltMs + 200) * MS
  }

  function StartTimer(ts: seq<Timer>, kind: nat, engine: nat, session: nat, serial: nat, expiry: int): seq<Timer> {
    var k := FreeTimer(ts);
    if k == |ts| then ts else ts[k := Timer(true, kind, engine, session, serial, 0, expiry)]
  }

  function CancelTimer(ts: seq<Timer>, kind: nat, session: nat, serial: nat): seq<Timer> {
    var k := FindTimer(ts, kind, session, serial);
    if k == |ts| then ts else ts[k := ts[k].(active := false)]
  }

  // ---- Writing ----

  /** A segment goes out when it fits the 512-octet encoding buffer; otherwise it is silently not sent. */
  function Emit(s: Segment): seq<Segment> {
    if Fits(s, SEGMENT_BUF) then [s] else []
  }

  function EmitAll(ss: seq<Segment>): seq<Segment> {
    if ss == [] then [] else Emit(ss[0]) + EmitAll(ss[1..])
  }

  /** A block's first transmission stops at the first segment that does not fit. */
  function EmitUntilStuck(ss: seq<Segment>): (r: seq<Segment>)
    ensures |r| <= |ss|
  {
    if ss == [] || !Fits(ss[0], SEGMENT_BUF) then [] else [ss[0]] + EmitUntilStuck(ss[1..])
  }

  // ---- Sending a block ----

  function Padded(block: seq<byte>): Buffer
    requires |block| <= MAX_BLOCK_SIZE
  {
    block + Zeroes(MAX_BLOCK_SIZE - |block|)
  }

  function OpenedExport(e: Engine, remote: nat, block: seq<byte>): Export
    requires |block| <= MAX_BLOCK_SIZE
  {
    Export(true, e.localId, e.nextSession, remote, Padded(block), |block|, e.config.mtu, 2, false, false)
  }

  predicate CanSend(e: Engine, block: seq<byte>) {
    block != [] && |block| <= e.config.maxBlockSize && FreeExport(e.exports) < |e.exports|
  }

  function BlockSegments(e: Engine, remote: nat, block: seq<byte>): seq<Segment>
    requires ConfigOk(e.config) && |block| <= MAX_BLOCK_SIZE
  {
    Segments(OpenedExport(e, remote, block), Pieces(0, |block|, e.config.mtu), RED_DATA_EORP_CP, 1)
  }

  function AfterOpen(e: Engine, remote: nat, block: seq<byte>): Engine
    requires |block| <= MAX_BLOCK_SIZE && FreeExport(e.exports) < |e.exports|
  {
    e.(exports := e.exports[FreeExport(e.exports) := OpenedExport(e, remote, block)], nextSession := e.nextSession + 1)
  }

  /** The checkpoint timer of the session just opened. */
  function ArmCheckpoint(e: Engine, x: Export, now: int): seq<Timer> {
    StartTimer(e.timers, CHECKPOINT_TIMER, x.engine, x.session, LastSerial(x.nextCp), now + TimerDuration(e.config))
  }

  function ArmNewest(e: Engine, now: int): Engine
    requires e.nextSession > 0
  {
    var k := FindOwnExport(e.exports, e.localId, e.nextSession - 1);
    if k == |e.exports| then e else e.(timers := ArmCheckpoint(e, e.exports[k], now))
  }

  function SendBlock(e: Engine, remote: nat, block: seq<byte>, now: int): Effect
    requires ConfigOk(e.config)
  {
    if !CanSend(e, block) then Nothing(e)
    else
      var ss := BlockSegments(e, remote, block);
      var e1 := AfterOpen(e, remote, block);
      var out := EmitUntilStuck(ss);
      Effect(if |out| == |ss| then ArmNewest(e1, now) else e1, out, [])
  }

  /** The last serial handed out. */
  function LastSerial(next: nat): nat {
    if next == 0 then 0 else next - 1
  }

  // ---- Receiving data ----

  function OpenedImport(engine: nat, session: nat): Import {
    Import(true, engine, session, Zeroes(MAX_BLOCK_SIZE), 0, [], 1, false, false)
  }

  /** The data of an accepted segment copied in, claimed, and the two completion tests. */
  function Accept(m: Import, kind: nat, offset: nat, payload: seq<byte>): Import
    requires offset + |payload| <= MAX_BLOCK_SIZE
  {
    var end := offset + |payload|;
    var data := m.data[..offset] + payload + m.data[end..];
    var claims := AddClaim(m.claims, offset, |payload|);
    var len := if kind == RED_DATA_EORP_CP then end else m.len;
    var full := len > 0 && Full(claims, len);
    m.(data := data, claims := claims, len := len, complete := m.complete || full)
  }

  /** The engine's completion test: one claim, from offset 0, reaching n. */
  predicate Full(claims: seq<Claim>, n: nat) {
    |claims| == 1 && claims[0].offset == 0 && claims[0].length >= n
  }

  function ReportHeader(e: Engine, session: nat): Header {
    Header(0, REPORT, e.localId, session, 0, 0)
  }

  /** A completed block goes to the application once. */
  predicate Completes(m: Import) {
    m.complete && !m.delivered
  }

  /** A checkpoint uses up a report serial; delivery frees the slot. */
  function Settle(m: Import, kind: nat): Import {
    var m2 := if IsCheckpoint(kind) then m.(nextRpt := m.nextRpt + 1) else m;
    if Completes(m) then m2.(delivered := true, active := false) else m2
  }

  /** The slot a data segment goes to: its session's, or the first free one. */
  function ImportSlot(e: Engine, h: Header): (k: nat)
    ensures k <= |e.imports|
  {
    var k := FindImport(e.imports, h.engine, h.session);
    if k < |e.imports| then k else FreeImport(e.imports)
  }

  function ImportAt(e: Engine, h: Header): Import {
    var k := FindImport(e.imports, h.engine, h.session);
    if k < |e.imports| then e.imports[k] else OpenedImport(h.engine, h.session)
  }

  function HandleData(e: Engine, s: Segment, now: int): Effect
    requires s.DataSeg?
  {
    var slot := ImportSlot(e, s.hdr);
    if slot == |e.imports| then Nothing(e)
    else if s.offset + |s.payload| > MAX_BLOCK_SIZE then
      Nothing(e.(imports := e.imports[slot := ImportAt(e, s.hdr)]))
    else
      var m := Accept(ImportAt(e, s.hdr), s.hdr.kind, s.offset, s.payload);
      Effect(e.(imports := e.imports[slot := Settle(m, s.hdr.kind)], timers := ArmReport(e, m, s.hdr.kind, now)),
             ReportFor(e, m, s), DeliveryOf(m))
  }

  function DeliveryOf(m: Import): seq<Delivery> {
    if Completes(m) then [Delivery(m.engine, m.session, m.data[..m.len])] else []
  }

  function ReportFor(e: Engine, m: Import, s: Segment): seq<Segment>
    requires s.DataSeg?
  {
    if IsCheckpoint(s.hdr.kind) then Emit(CheckpointReport(e, m, s)) else []
  }

  function ArmReport(e: Engine, m: Import, kind: nat, now: int): seq<Timer> {
    if IsCheckpoint(kind)
    then StartTimer(e.timers, REPORT_TIMER, m.engine, m.session, m.nextRpt, now + TimerDuration(e.config))
    else e.timers
  }

  function CheckpointReport(e: Engine, m: Import, s: Segment): Segment
    requires s.DataSeg?
  {
    ReportSeg(ReportHeader(e, s.hdr.session), m.nextRpt, s.cpSerial,
              if m.len > 0 then m.len else s.offset + |s.payload|, 0, m.claims)
  }

  // ---- Receiving a report ----

  function HandleReport(e: Engine, s: Segment, now: int): Effect
    requires s.ReportSeg?
  {
    var k := FindOwnExport(e.exports, e.localId, s.hdr.session);
    if k == |e.exports| then Nothing(e)
    else
      var x := e.exports[k];
      var timers := CancelTimer(e.timers, CHECKPOINT_TIMER, s.hdr.session, s.cpSerial);
      if Full(s.claims, x.len) then
        Effect(e.(exports := e.exports[k := x.(completed := true)], timers := timers), Emit(AckOf(e, s)), [])
      else
        var ps := Missing(x, e.config, s.claims, s.lower, s.upper);
        var x1 := AfterResend(x, ps);
        Effect(e.(exports := e.exports[k := x1], timers := ArmResent(timers, e.config, x1, now)),
               Emit(AckOf(e, s)) + EmitAll(Segments(x, ps, RED_DATA_CP, x.nextCp)), [])
  }

  function AckOf(e: Engine, s: Segment): Segment
    requires s.ReportSeg?
  {
    AckSeg(Header(0, REPORT_ACK, e.localId, s.hdr.session, 0, 0), s.rptSerial)
  }

  /** A retransmission that sends anything uses up a checkpoint serial. */
  function AfterResend(x: Export, ps: seq<Claim>): Export {
    if ps == [] then x else x.(nextCp := x.nextCp + 1)
  }

  function ArmResent(ts: seq<Timer>, config: Config, x: Export, now: int): seq<Timer> {
    StartTimer(ts, CHECKPOINT_TIMER, x.engine, x.session, LastSerial(x.nextCp), now + TimerDuration(config))
  }

  // ---- Acknowledgements and cancellation ----

  function HandleAck(e: Engine, s: Segment): Effect
    requires s.AckSeg?
  {
    Nothing(e.(timers := CancelTimer(e.timers, REPORT_TIMER, s.hdr.session, s.rptSerial)))
  }

  function CloseImport(e: Engine, engine: nat, session: nat): Engine {
    var k := FindImport(e.imports, engine, session);
    if k == |e.imports| then e else e.(imports := e.imports[k := e.imports[k].(active := false)])
  }

  function CloseExport(e: Engine, session: nat): Engine {
    var k := FindExport(e.exports, session);
    if k == |e.exports| then e
    else e.(exports := e.exports[k := e.exports[k].(active := false, cancelled := true)])
  }

  function CancelSegment(e: Engine, kind: nat, session: nat): Segment {
    CancelSeg(Header(0, kind, e.localId, session, 0, 0), 0)
  }

  /** The four cancel segments: two are answered and close a session, two answer and close one. */
  function HandleCancel(e: Engine, h: Header): Effect {
    if h.kind == CANCEL_BY_SENDER then
      Effect(CloseImport(e, h.engine, h.session), Emit(CancelSegment(e, CANCEL_ACK_SENDER, h.session)), [])
    else if h.kind == CANCEL_ACK_SENDER then
      var e1 := CloseExport(e, h.session);
      Nothing(e1.(timers := CancelTimer(e1.timers, CANCEL_TIMER, h.session, 0)))
    else if h.kind == CANCEL_BY_RECVR then
      Effect(CloseExport(e, h.session), Emit(CancelSegment(e, CANCEL_ACK_RECVR, h.session)), [])
    else
      var e1 := CloseImport(e, h.engine, h.session);
      Nothing(e1.(timers := CancelTimer(e1.timers, CANCEL_TIMER, h.session, 0)))
  }

  // ---- One received octet string ----

  function Process(e: Engine, buf: seq<byte>, now: int): Effect {
    match DecodeHeader(buf)
    case None => Nothing(e)
    case Some(f) => ProcessBody(e, f.hdr, f.body, now)
  }

  /** Dispatch on the type octet; green data and anything that does not parse leave the tables alone. */
  function ProcessBody(e: Engine, h: Header, body: seq<byte>, now: int): Effect {
    if h.kind <= RED_DATA_EORP_CP then
      match DecodeData(h, body) case None => Nothing(e) case Some(s) => HandleData(e, s, now)
    else if h.kind == REPORT then
      match DecodeReport(h, body) case None => Nothing(e) case Some(s) => HandleReport(e, s, now)
    else if h.kind == REPORT_ACK then
      match DecodeAck(h, body) case None => Nothing(e) case Some(s) => HandleAck(e, s)
    else if h.kind == CANCEL_BY_SENDER || h.kind == CANCEL_BY_RECVR then
      match DecodeCancel(h, body) case None => Nothing(e) case Some(s) => HandleCancel(e, h)
    else if h.kind == CANCEL_ACK_SENDER || h.kind == CANCEL_ACK_RECVR then HandleCancel(e, h)
    else Nothing(e)
  }

  /** When the call reports success: the segment parses and the tables have a place for it. */
  predicate Accepted(e: Engine, h: Header, body: seq<byte>) {
    if h.kind <= RED_DATA_EORP_CP then
      match DecodeData(h, body)
      case None => false
      case Some(s) => ImportSlot(e, s.hdr) < |e.imports| && s.offset + |s.payload| <= MAX_BLOCK_SIZE
    else if h.kind == REPORT then
      match DecodeReport(h, body)
      case None => false
      case Some(s) => FindOwnExport(e.exports, e.localId, s.hdr.session) < |e.exports|
    else if h.kind == REPORT_ACK then DecodeAck(h, body).Some?
    else if h.kind == CANCEL_BY_SENDER || h.kind == CANCEL_BY_RECVR then |body| >= 1
    else h.kind == CANCEL_ACK_SENDER || h.kind == CANCEL_ACK_RECVR
  }

  /** What a segment means to the engine that receives it. */
  function Handle(e: Engine, s: Segment, now: int): Effect {
    match s
    case DataSeg(h, _, _, _, _, _) => if h.kind <= RED_DATA_EORP_CP then HandleData(e, s, now) else Nothing(e)
    case ReportSeg(_, _, _, _, _, _) => HandleReport(e, s, now)
    case AckSeg(_, _) => HandleAck(e, s)
    case CancelSeg(h, _) => HandleCancel(e, h)
  }

  /** On the wire nothing is lost or added: a segment that reaches the peer unaltered is handled as itself or refused. */
  lemma ProcessWire(e: Engine, s: Segment, now: int)
    requires WellFormed(s)
    ensures Process(e, Wire(s), now) == if Decodable(s) then Handle(e, s, now) else Nothing(e)
  {
    SegmentRoundTrip(s);
    if s.CancelSeg? {
      assert Small(ContentFields(s));
    }
  }

  /**
   * Header extensions, and anything after the content, make no difference: the segment is handled as it would be
   * without them, as long as what follows the header fits the decoder's buffer.
   */
  lemma ProcessExtended(e: Engine, s: Segment, xs: seq<Extension>, trailers: byte, extra: seq<byte>, now: int)
    requires WellFormed(s) && Decodable(s) && |xs| < 256 && ShortExtensions(xs)
    ensures var buf := HeaderBytes(s.hdr.(hdrExt := |xs|, trailerExt := trailers)) + (ExtensionBytes(xs) + (Body(s) + extra));
            Process(e, buf, now) == if |Body(s)| + |extra| <= SEGMENT_BUF then Handle(e, s, now) else Nothing(e)
  {
    var h := s.hdr.(hdrExt := |xs|, trailerExt := trailers);
    ExtendedHeader(h, xs, Body(s) + extra);
    ContentRead(s, h, extra);
    hide *;
    ContentDispatched(e, h, Body(s) + extra, s, now);
    SameHandling(e, s, h, now);
  }

  lemma ContentDispatched(e: Engine, h: Header, body: seq<byte>, s: Segment, now: int)
    requires h == s.hdr.(hdrExt := h.hdrExt, trailerExt := h.trailerExt) && WellFormed(s)
    requires DecodeContent(h, body) == Some(WithHeader(s, h))
    ensures ProcessBody(e, h, body, now) == Handle(e, WithHeader(s, h), now)
  {
    hide HandleData, HandleReport, HandleAck, HandleCancel, Fields;
  }

  lemma SameHandling(e: Engine, s: Segment, h: Header, now: int)
    requires h == s.hdr.(hdrExt := h.hdrExt, trailerExt := h.trailerExt)
    ensures Handle(e, WithHeader(s, h), now) == Handle(e, s, now)
  {
    hide Accept, Missing, EmitAll, Fits, Full, StartTimer, CancelTimer;
  }

  // ---- Cancelling an export session ----

  function CancelSession(e: Engine, session: nat, now: int): Effect {
    var k := FindExport(e.exports, session);
    if k == |e.exports| then Nothing(e)
    else
      var x := e.exports[k];
      Effect(e.(exports := e.exports[k := x.(cancelled := true)],
                timers := StartTimer(e.timers, CANCEL_TIMER, x.engine, session, 0, now + TimerDuration(e.config))),
             Emit(CancelSegment(e, CANCEL_BY_SENDER, session)), [])
  }

  // ---- Expiry ----

  /** The C int that max_retries becomes in the comparison. */
  function AsInt32(x: nat): int {
    if x % 0x1_0000_0000 < 0x8000_0000 then x % 0x1_0000_0000 else x % 0x1_0000_0000 - 0x1_0000_0000
  }

  predicate Expired(t: Timer, now: int) {
    t.active && t.expiry <= now
  }

  /** To the millisecond: after the wait some timer has expired, before it none has; -1 when none is running. */
  ghost predicate IsTimeout(ts: seq<Timer>, now: int, wait: int) {
    if forall i :: 0 <= i < |ts| ==> !ts[i].active then wait == -1
    else
      && wait >= 0
      && (exists i :: 0 <= i < |ts| && Expired(ts[i], now + (wait + 1) * MS))
      && (wait > 0 ==> forall i :: 0 <= i < |ts| ==> !Expired(ts[i], now + (wait - 1) * MS))
  }

  /** The session of an exhausted timer is closed. */
  function GiveUp(e: Engine, t: Timer): Engine {
    if t.kind == CHECKPOINT_TIMER then CloseExport(e, t.session)
    else if t.kind == REPORT_TIMER then
      var k := FindImportByNumber(e.imports, t.session);
      if k == |e.imports| then e else e.(imports := e.imports[k := e.imports[k].(active := false)])
    else e
  }

  /** The tail of the block as a checkpoint with a new serial. */
  function TailRange(x: Export, config: Config): Claim {
    var mtu := if x.mtu == 0 then config.mtu else x.mtu;
    var offset := if x.len > mtu then x.len - mtu else 0;
    Claim(offset, x.len - offset)
  }

  function Resend(e: Engine, t: Timer): Effect {
    if t.kind == CHECKPOINT_TIMER then
      var k := FindExport(e.exports, t.session);
      if k == |e.exports| then Nothing(e)
      else
        var x := e.exports[k];
        Effect(e.(exports := e.exports[k := x.(nextCp := x.nextCp + 1)]),
               Emit(DataSegment(x, RED_DATA_EORP_CP, TailRange(x, e.config), x.nextCp)), [])
    else if t.kind == REPORT_TIMER then
      var k := FindImportByNumber(e.imports, t.session);
      if k == |e.imports| then Nothing(e)
      else
        var m := e.imports[k];
        Effect(e, Emit(ReportSeg(ReportHeader(e, m.session), t.serial, 0, m.len, 0, m.claims)), [])
    else if t.kind == CANCEL_TIMER then
      Effect(e, Emit(CancelSegment(e, CANCEL_BY_SENDER, t.session)), [])
    else Nothing(e)
  }

  /** One timer slot: untouched unless it has expired; closed on its last retry; otherwise resent and rearmed. */
  function FireSlot(e: Engine, i: nat, now: int): Effect
    requires i < |e.timers|
  {
    var t := e.timers[i];
    if !Expired(t, now) then Nothing(e)
    else
      var t1 := t.(retries := t.retries + 1);
      if t1.retries >= AsInt32(e.config.maxRetries) then
        var e1 := GiveUp(e, t);
        Nothing(e1.(timers := e1.timers[i := t1.(active := false)]))
      else
        var f := Resend(e, t);
        Effect(f.engine.(timers := f.engine.timers[i := t1.(expiry := now + TimerDuration(e.config))]), f.sent, f.delivered)
  }

  /** Slots from i on that have expired: what ltp_fire_expired_timers counts. */
  function Due(ts: seq<Timer>, i: nat, now: int): nat
    decreases |ts| - i
  {
    if i >= |ts| then 0 else (if Expired(ts[i], now) then 1 else 0) + Due(ts, i + 1, now)
  }

  /** All slots from i on, in order. */
  function FireFrom(e: Engine, i: nat, now: int): Effect
    decreases |e.timers| - i
  {
    if i >= |e.timers| then Nothing(e)
    else
      var f := FireSlot(e, i, now);
      var g := FireFrom(f.engine, i + 1, now);
      Effect(g.engine, f.sent + g.sent, f.delivered + g.delivered)
  }

  function FireExpired(e: Engine, now: int): Effect {
    FireFrom(e, 0, now)
  }

  // ---- No step changes the configuration or the identifier ----

  lemma ProcessKeepsConfig(e: Engine, buf: seq<byte>, now: int)
    ensures var f := Process(e, buf, now).engine; f.config == e.config && f.localId == e.localId
  {
    hide DecodeHeader, DecodeData, DecodeReport, DecodeAck, DecodeCancel, Accept, Missing, EmitAll, Fits, Full;
  }

  lemma {:induction false} FireKeepsConfig(e: Engine, i: nat, now: int)
    ensures var f := FireFrom(e, i, now).engine; f.config == e.config && f.localId == e.localId
    decreases |e.timers| - i
  {
    if i < |e.timers| {
      FireSlotKeepsConfig(e, i, now);
      FireKeepsConfig(FireSlot(e, i, now).engine, i + 1, now);
    }
  }

  lemma FireSlotKeepsConfig(e: Engine, i: nat, now: int)
    requires i < |e.timers|
    ensures var f := FireSlot(e, i, now).engine;
            f.config == e.config && f.localId == e.localId && |f.timers| == |e.timers|
  {
  }
}
