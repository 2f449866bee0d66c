/**
 * Which reports stop a checkpoint timer, and what becomes of one whose first checkpoint is never reported on,
 * however many of its later ones are.
 */
module LtpUnanswered {
  import opened Bytes
  import opened LtpSegment
  import opened LtpState
  import opened LtpSegmentation
  import opened LtpSteps
  import opened LtpDiscipline
  import opened LtpTimers
  import opened LtpSerials

  // ---- One report ----

  /** A checkpoint timer is running in slot i. */
  ghost predicate Running(ts: seq<Timer>, i: nat) {
    i < |ts| && ts[i].active && ts[i].kind == CHECKPOINT_TIMER
  }

  /** The first active timer of its session and serial, as CancelTimer looks for it. */
  ghost predicate FirstOfItsSerial(ts: seq<Timer>, i: nat) {
    && Running(ts, i)
    && forall j :: 0 <= j < i ==> !TimerMatches(ts[j], CHECKPOINT_TIMER, ts[i].session, ts[i].serial)
  }

  /** The timer a report's answer starts. */
  function AnswerTimer(e: Engine, x: Export, now: int): Timer {
    Timer(true, CHECKPOINT_TIMER, x.engine, x.session, LastSerial(x.nextCp), 0, now + TimerDuration(e.config))
  }

  /**
   * A report on an open session stops the session's checkpoint timer exactly when it names the serial the timer
   * was started with; the slot is then empty, unless the answer's own timer has been started in it.
   */
  lemma ReportStopsTimerIff(e: Engine, i: nat, r: Segment, now: int)
    requires r.ReportSeg? && FirstOfItsSerial(e.timers, i) && e.timers[i].session == r.hdr.session
    requires FindOwnExport(e.exports, e.localId, r.hdr.session) < |e.exports|
    ensures var k := FindOwnExport(e.exports, e.localId, r.hdr.session);
            var t, f := e.timers[i], HandleReport(e, r, now).engine;
            && |f.timers| == |e.timers|
            && f.timers[i] ==
                 if r.cpSerial != t.serial then t
                 else if !Full(r.claims, e.exports[k].len) && FreeTimer(e.timers[i := t.(active := false)]) == i
                 then AnswerTimer(e, f.exports[k], now)
                 else t.(active := false)
  {
    hide Full, Missing, EmitAll, Segments, Fits;
    var t := e.timers[i];
    CancelHits(e.timers, i, r.cpSerial);
  }

  lemma CancelHits(ts: seq<Timer>, i: nat, cpSerial: nat)
    requires FirstOfItsSerial(ts, i)
    ensures var us := CancelTimer(ts, CHECKPOINT_TIMER, ts[i].session, cpSerial);
            && |us| == |ts|
            && (cpSerial == ts[i].serial ==> us == ts[i := ts[i].(active := false)])
            && (cpSerial != ts[i].serial ==> us[i] == ts[i])
  {
  }

  /** Whatever report a peer writes when it receives a checkpoint names that checkpoint's serial. */
  lemma AnswersNameSerial(peer: Engine, s: Segment, now: int, r: Segment)
    requires s.DataSeg? && WellFormed(s) && IsCheckpoint(s.hdr.kind) && r in Process(peer, Wire(s), now).sent
    ensures r.ReportSeg? && r.cpSerial == s.cpSerial
  {
    hide Process, Wire, Decodable, Fits, Accept;
    ProcessWire(peer, s, now);
  }

  /** A report that a peer repeats because its own timer expired names none. */
  lemma RepeatedReportsNameNone(peer: Engine, t: Timer, r: Segment)
    requires r in Resend(peer, t).sent && r.ReportSeg?
    ensures r.cpSerial == 0
  {
    hide Fits;
  }

  /** What the expiry of a checkpoint timer sends: the tail of the block under a new serial. */
  function Resent(e: Engine, t: Timer): Segment
    requires FindExport(e.exports, t.session) < |e.exports|
  {
    var x := e.exports[FindExport(e.exports, t.session)];
    DataSegment(x, RED_DATA_EORP_CP, TailRange(x, e.config), x.nextCp)
  }

  /**
   * Once a timer has resent its checkpoint, no report by which a peer answers the resent one stops it: the
   * segment carries a new serial, the timer keeps the old one.
   */
  lemma ResentCheckpointKeepsTimer(e: Engine, i: nat, now: int, peer: Engine, later: int, r: Segment, last: int)
    requires Running(e.timers, i) && Expired(e.timers[i], now)
    requires e.timers[i].retries + 1 < AsInt32(e.config.maxRetries)
    requires var k := FindExport(e.exports, e.timers[i].session);
             k < |e.exports| && e.timers[i].serial < e.exports[k].nextCp
    requires r in Process(peer, Wire(Resent(e, e.timers[i])), later).sent
    ensures var t, f := e.timers[i], FireSlot(e, i, now);
            && f.sent == Emit(Resent(e, t))
            && f.engine.timers == e.timers[i := t.(retries := t.retries + 1, expiry := now + TimerDuration(e.config))]
            && r.ReportSeg? && r.cpSerial > t.serial
            && SameTimer(f.engine.timers, HandleReport(f.engine, r, last).engine.timers, i)
  {
    hide Process, Wire, Fits, HandleReport, Slice, TailRange;
    FireSlotTimers(e, i, now);
    AnswersNameSerial(peer, Resent(e, e.timers[i]), later, r);
    ReportPasses(FireSlot(e, i, now).engine, r, last, i);
  }

  // ---- One input ----

  /** A report that names the session and serial of a timer. */
  predicate Stops(s: Segment, session: nat, serial: nat) {
    s.ReportSeg? && s.hdr.session == session && s.cpSerial == serial
  }

  /** The octets are such a report. */
  predicate IsStop(buf: seq<byte>, session: nat, serial: nat) {
    match DecodeHeader(buf)
    case None => false
    case Some(f) =>
      f.hdr.kind == REPORT &&
      match DecodeReport(f.hdr, f.body) case None => false case Some(s) => Stops(s, session, serial)
  }

  ghost predicate SameTimer(ts: seq<Timer>, us: seq<Timer>, i: nat) {
    i < |ts| == |us| && us[i] == ts[i]
  }

  lemma ReportPasses(e: Engine, r: Segment, now: int, i: nat)
    requires r.ReportSeg? && Running(e.timers, i)
    requires !Stops(r, e.timers[i].session, e.timers[i].serial)
    ensures SameTimer(e.timers, HandleReport(e, r, now).engine.timers, i)
  {
    hide Full, Missing, EmitAll, Segments, Fits;
  }

  lemma DataPasses(e: Engine, s: Segment, now: int, i: nat)
    requires s.DataSeg? && Running(e.timers, i)
    ensures SameTimer(e.timers, HandleData(e, s, now).engine.timers, i)
  {
    hide Accept, Fits, DeliveryOf, ReportFor;
  }

  lemma CancelPasses(e: Engine, h: Header, i: nat)
    requires Running(e.timers, i)
    ensures SameTimer(e.timers, HandleCancel(e, h).engine.timers, i)
  {
    hide Fits;
  }

  lemma BodyPasses(e: Engine, h: Header, body: seq<byte>, now: int, i: nat)
    requires Running(e.timers, i)
    requires h.kind == REPORT && DecodeReport(h, body).Some?
             ==> !Stops(DecodeReport(h, body).value, e.timers[i].session, e.timers[i].serial)
    ensures SameTimer(e.timers, ProcessBody(e, h, body, now).engine.timers, i)
  {
    hide HandleData, HandleReport, HandleCancel, Stops;
    if h.kind <= RED_DATA_EORP_CP && DecodeData(h, body).Some? {
      DataPasses(e, DecodeData(h, body).value, now, i);
    } else if h.kind == REPORT && DecodeReport(h, body).Some? {
      ReportPasses(e, DecodeReport(h, body).value, now, i);
    } else if CANCEL_BY_SENDER <= h.kind <= CANCEL_ACK_RECVR {
      CancelPasses(e, h, i);
    }
  }

  /** Only expiry touches a running checkpoint timer, unless the input is a report that names its serial. */
  lemma InputPasses(e: Engine, input: Input, now: int, i: nat)
    requires ConfigOk(e.config) && Running(e.timers, i)
    requires input.Octets? ==> !IsStop(input.buf, e.timers[i].session, e.timers[i].serial)
    ensures var f := Respond(e, input, now).engine;
            |f.timers| == |e.timers|
            && f.timers[i] == if input.Tick? then Fired(e.timers[i], e.config, now) else e.timers[i]
  {
    hide ProcessBody, FireFrom, Fired, BlockSegments, EmitUntilStuck, Stops, Fits;
    match input
    case Submit(remote, block) =>
    case Octets(buf) =>
      if DecodeHeader(buf).Some? {
        var d := DecodeHeader(buf).value;
        BodyPasses(e, d.hdr, d.body, now, i);
      }
    case Abort(n) =>
    case Tick => FireTimers(e, 0, now);
  }

  // ---- The last expiry ----

  /** The session is not open. */
  ghost predicate Closed(e: Engine, n: nat) {
    forall k :: 0 <= k < |e.exports| && e.exports[k].active ==> e.exports[k].session != n
  }

  lemma UniqueStays(e: Engine, f: Engine)
    requires NoneOpened(e, f) && UniqueExports(e.exports, e.nextSession)
    ensures UniqueExports(f.exports, f.nextSession)
  {
  }

  lemma SlotCloses(e: Engine, i: nat, now: int)
    requires i < |e.timers| && UniqueExports(e.exports, e.nextSession)
    requires Expired(e.timers[i], now) && e.timers[i].kind == CHECKPOINT_TIMER
    requires e.timers[i].retries + 1 >= AsInt32(e.config.maxRetries)
    ensures Closed(FireSlot(e, i, now).engine, e.timers[i].session)
  {
  }

  /** The sweep that spends a timer's last retry leaves its session closed. */
  lemma {:induction false} SweepCloses(e: Engine, j: nat, i: nat, now: int)
    requires j <= i < |e.timers| && UniqueExports(e.exports, e.nextSession)
    requires Expired(e.timers[i], now) && e.timers[i].kind == CHECKPOINT_TIMER
    requires e.timers[i].retries + 1 >= AsInt32(e.config.maxRetries)
    ensures Closed(FireFrom(e, j, now).engine, e.timers[i].session)
    decreases i - j
  {
    hide FireSlot, Expired, UniqueExports;
    var f := FireSlot(e, j, now).engine;
    SlotOpensNone(e, j, now);
    FireSlotTimers(e, j, now);
    UniqueStays(e, f);
    if j < i {
      SweepCloses(f, j + 1, i, now);
    } else {
      SlotCloses(e, i, now);
      FireOpensNone(f, j + 1, now);
    }
  }

  /** A number already used stays closed. */
  lemma StaysClosed(e: Engine, input: Input, now: int, n: nat)
    requires ConfigOk(e.config) && Closed(e, n) && n < e.nextSession
    ensures var f := Respond(e, input, now).engine; Closed(f, n) && n < f.nextSession
  {
    hide Process, FireFrom, EmitUntilStuck, BlockSegments;
    match input
    case Submit(remote, block) =>
    case Octets(buf) => OctetsOpenNone(e, buf, now);
    case Abort(m) =>
    case Tick => FireOpensNone(e, 0, now);
  }

  // ---- A run without a report on the first checkpoint ----

  ghost predicate NeverStopped(inputs: seq<(Input, int)>, session: nat, serial: nat) {
    forall p :: 0 <= p < |inputs| && inputs[p].0.Octets? ==> !IsStop(inputs[p].0.buf, session, serial)
  }

  /** How often the timer in slot i has expired when the timers were polled, while it had firings left. */
  ghost function Firings(h: History, inputs: seq<(Input, int)>, i: nat, left: nat): (c: nat)
    requires ConfigOk(h.engine.config)
    ensures c <= left
    decreases |inputs|
  {
    if inputs == [] then 0
    else
      var prev, last := inputs[..|inputs| - 1], inputs[|inputs| - 1];
      var c, e := Firings(h, prev, i, left), Live(h, prev).engine;
      if c < left && last.0.Tick? && i < |e.timers| && Expired(e.timers[i], last.1) then c + 1 else c
  }

  /** The timer of t after c firings, or its session closed when they were all it had. */
  ghost predicate Progress(e: Engine, i: nat, t: Timer, c: nat, left: nat) {
    && t.session < e.nextSession
    && (c < left ==> i < |e.timers| && e.timers[i] == t.(retries := t.retries + c, expiry := e.timers[i].expiry))
    && (c >= left ==> Closed(e, t.session))
  }

  /** How many firings a timer has left. */
  ghost function Left(t: Timer, c: Config): nat {
    if t.retries < Quota(c) then Quota(c) - t.retries else 0
  }

  lemma StepProgress(e: Engine, input: Input, now: int, i: nat, t: Timer, c: nat)
    requires ConfigOk(e.config) && t.active && t.kind == CHECKPOINT_TIMER && 0 <= t.retries < Quota(e.config)
    requires UniqueExports(e.exports, e.nextSession)
    requires Progress(e, i, t, c, Left(t, e.config)) && c < Left(t, e.config)
    requires input.Octets? ==> !IsStop(input.buf, t.session, t.serial)
    ensures var fired := input.Tick? && Expired(e.timers[i], now);
            Progress(Respond(e, input, now).engine, i, t, if fired then c + 1 else c, Left(t, e.config))
  {
    hide IsStop, FireFrom, UniqueExports, Closed;
    CounterStays(e, input, now);
    hide Respond;
    InputPasses(e, input, now, i);
    if input.Tick? && Expired(e.timers[i], now) && c + 1 >= Left(t, e.config) {
      SweepCloses(e, 0, i, now);
      assert Respond(e, input, now).engine == FireFrom(e, 0, now).engine by { TickIs(e, now); }
    }
  }

  lemma TickIs(e: Engine, now: int)
    requires ConfigOk(e.config)
    ensures Respond(e, Tick, now) == FireFrom(e, 0, now)
  {
  }

  lemma CounterStays(e: Engine, input: Input, now: int)
    requires ConfigOk(e.config)
    ensures e.nextSession <= Respond(e, input, now).engine.nextSession
  {
    hide Respond;
    OpensNext(e, input, now);
  }

  /**
   * Over any run in which no report names the serial a checkpoint timer was started with, whatever else is
   * received, and so also when every checkpoint it resends is answered: each of its expiries uses up one
   * firing, nothing else touches it, and the last one closes the session.
   */
  lemma {:induction false} UnansweredTimerCloses(h: History, inputs: seq<(Input, int)>, i: nat)
    requires ConfigOk(h.engine.config) && Disciplined(h) && Running(h.engine.timers, i)
    requires var t := h.engine.timers[i];
             && 0 <= t.retries < Quota(h.engine.config) && t.session < h.engine.nextSession
             && NeverStopped(inputs, t.session, t.serial)
    ensures var t := h.engine.timers[i];
            var left := Left(t, h.engine.config);
            Progress(Live(h, inputs).engine, i, t, Firings(h, inputs, i, left), left)
    decreases |inputs|
  {
    if inputs != [] {
      var t := h.engine.timers[i];
      var left := Left(t, h.engine.config);
      var prev, last := inputs[..|inputs| - 1], inputs[|inputs| - 1];
      var e := Live(h, prev).engine;
      UnansweredTimerCloses(h, prev, i);
      LiveDisciplined(h, prev);
      var c := Firings(h, prev, i, left);
      hide Respond, IsStop, UniqueImports, Spent, Increasing;
      if c < left {
        StepProgress(e, last.0, last.1, i, t, c);
      } else {
        StaysClosed(e, last.0, last.1, t.session);
      }
    }
  }
}
