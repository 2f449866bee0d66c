/**
 * What an acknowledgement is for: it names the report it answers, it stops that report's timer and no other,
 * and a session whose report has been acknowledged is not given up because of it.
 */
module LtpAcknowledged {
  import opened Bytes
  import opened ClaimMap
  import opened LtpSegment
  import opened LtpState
  import opened LtpSegmentation
  import opened LtpSteps
  import opened LtpDiscipline
  import opened LtpTimers
  import opened LtpSerials
  import opened LtpRound
  import opened Sdnv

  // ---- A report and its timer ----

  /** The first active timer of the kind, session and serial has been stopped; every other timer is as it was. */
  ghost predicate FirstStopped(ts: seq<Timer>, us: seq<Timer>, kind: nat, session: nat, serial: nat) {
    && |us| == |ts|
    && forall i :: 0 <= i < |us| ==>
         us[i] == if TimerMatches(ts[i], kind, session, serial)
                     && (forall j :: 0 <= j < i ==> !TimerMatches(ts[j], kind, session, serial))
                  then ts[i].(active := false) else ts[i]
  }

  lemma CancelStopsFirst(ts: seq<Timer>, kind: nat, session: nat, serial: nat)
    ensures FirstStopped(ts, CancelTimer(ts, kind, session, serial), kind, session, serial)
  {
  }

  /** A report that answers a checkpoint is timed in the first free slot, under its own session and serial. */
  lemma ReportIsTimed(e: Engine, s: Segment, now: int, r: Segment)
    requires s.DataSeg? && WellFormed(s) && IsCheckpoint(s.hdr.kind) && r in Process(e, Wire(s), now).sent
    requires FreeTimer(e.timers) < |e.timers|
    ensures var i, f := FreeTimer(e.timers), Process(e, Wire(s), now).engine;
            && i < |f.timers| && r.ReportSeg? && WellFormed(r) && r.hdr.session == s.hdr.session
            && f.timers == e.timers[i := f.timers[i]] && TimerMatches(f.timers[i], REPORT_TIMER, r.hdr.session, r.rptSerial)
            && f.timers[i].engine == s.hdr.engine && f.timers[i].retries == 0
  {
    hide Process, Wire, Decodable, Fits, Accept;
    ProcessWire(e, s, now);
    DataAnswer(e, s, now, r);
    AcceptedKeeps(e, s);
  }

  lemma AcceptedKeeps(e: Engine, s: Segment)
    requires s.DataSeg? && s.offset + |s.payload| <= MAX_BLOCK_SIZE
    ensures var m0 := ImportAt(e, s.hdr);
            var m := Accept(m0, s.hdr.kind, s.offset, s.payload);
            && m.engine == m0.engine == s.hdr.engine && m.session == m0.session == s.hdr.session && m.nextRpt == m0.nextRpt
            && |m.claims| <= 16
  {
  }

  /** Whatever acknowledgement is written on a report received as octets names that report. */
  lemma AcksNameReport(sender: Engine, r: Segment, now: int, a: Segment)
    requires r.ReportSeg? && WellFormed(r) && a in Process(sender, Wire(r), now).sent && a.AckSeg?
    ensures WellFormed(a) && a.hdr.session == r.hdr.session && a.rptSerial == r.rptSerial && a.hdr.engine == sender.localId
    ensures Decodable(r)
  {
    hide Process, Wire, Decodable, Fits, Full, Missing;
    ProcessWire(sender, r, now);
    var k := FindOwnExport(sender.exports, sender.localId, r.hdr.session);
    if k < |sender.exports| && !Full(r.claims, sender.exports[k].len) {
      var x := sender.exports[k];
      var ps := Missing(x, sender.config, r.claims, r.lower, r.upper);
      OnlyData(Segments(x, ps, RED_DATA_CP, x.nextCp));
    }
  }

  lemma {:induction false} OnlyData(ss: seq<Segment>)
    requires forall i :: 0 <= i < |ss| ==> ss[i].DataSeg?
    ensures forall s :: s in EmitAll(ss) ==> s.DataSeg?
  {
    hide Fits;
    if ss != [] {
      OnlyData(ss[1..]);
    }
  }

  /** For an open session there is exactly one, and it goes out first. */
  lemma OneAck(sender: Engine, r: Segment, now: int)
    requires r.ReportSeg? && WellFormed(r) && Decodable(r) && sender.localId < INT64_LIMIT
    requires FindOwnExport(sender.exports, sender.localId, r.hdr.session) < |sender.exports|
    ensures var f := Process(sender, Wire(r), now);
            f.sent != [] && f.sent[0].AckSeg? && forall k :: 0 < k < |f.sent| ==> f.sent[k].DataSeg?
  {
    hide Process, Wire, Fits, Full, Missing;
    ProcessWire(sender, r, now);
    SmallReport(r);
    AckFits(sender, r);
    hide Decodable;
    var k := FindOwnExport(sender.exports, sender.localId, r.hdr.session);
    if !Full(r.claims, sender.exports[k].len) {
      var x := sender.exports[k];
      var ps := Missing(x, sender.config, r.claims, r.lower, r.upper);
      var more := EmitAll(Segments(x, ps, RED_DATA_CP, x.nextCp));
      OnlyData(Segments(x, ps, RED_DATA_CP, x.nextCp));
      assert forall j :: 0 <= j < |more| ==> more[j] in more;
    }
  }

  lemma SmallReport(r: Segment)
    requires r.ReportSeg? && Decodable(r)
    ensures r.hdr.session < INT64_LIMIT && r.rptSerial < INT64_LIMIT
  {
    assert Small([r.hdr.engine, r.hdr.session]) && [r.hdr.engine, r.hdr.session][1] == r.hdr.session;
    assert ContentFields(r)[0] == r.rptSerial;
  }

  /** An acknowledgement received as octets stops the first timer of its report, and does nothing else. */
  lemma AckStops(e: Engine, a: Segment, now: int)
    requires a.AckSeg? && WellFormed(a) && Decodable(a)
    ensures var f := Process(e, Wire(a), now);
            && f.sent == [] && f.delivered == [] && f.engine == e.(timers := f.engine.timers)
            && FirstStopped(e.timers, f.engine.timers, REPORT_TIMER, a.hdr.session, a.rptSerial)
  {
    hide Process, Wire, Decodable, FirstStopped, CancelTimer;
    ProcessWire(e, a, now);
    CancelStopsFirst(e.timers, REPORT_TIMER, a.hdr.session, a.rptSerial);
  }

  lemma DecodableAck(a: Segment)
    requires a.AckSeg? && WellFormed(a) && a.hdr.engine < INT64_LIMIT && a.hdr.session < INT64_LIMIT && a.rptSerial < INT64_LIMIT
    ensures Decodable(a)
  {
    hide Decodable;
    FitsBothWays(a);
  }

  /** No report timer of that session number and serial is running. */
  ghost predicate Untimed(ts: seq<Timer>, session: nat, serial: nat) {
    forall i :: 0 <= i < |ts| ==> !TimerMatches(ts[i], REPORT_TIMER, session, serial)
  }

  /**
   * Timers before a report is written, after, and after its acknowledgement. The report's timer in slot i is
   * stopped, unless an earlier slot times a report of the same session number and serial; timers of other reports,
   * sessions and kinds are as they were; and if no timer of that number and serial was running before, none is.
   */
  ghost predicate TimerAcked(ts: seq<Timer>, us: seq<Timer>, vs: seq<Timer>, i: nat, session: nat, serial: nat) {
    && |ts| == |us| == |vs| && i < |ts| && us[i].active
    && (!vs[i].active <==> forall j :: 0 <= j < i ==> !TimerMatches(ts[j], REPORT_TIMER, session, serial))
    && (forall j :: 0 <= j < |vs| && !TimerMatches(us[j], REPORT_TIMER, session, serial) ==> vs[j] == us[j])
    && (Untimed(ts, session, serial) ==> Untimed(vs, session, serial))
  }

  lemma AckedFirst(ts: seq<Timer>, us: seq<Timer>, vs: seq<Timer>, i: nat, session: nat, serial: nat)
    requires i < |ts| == |us| && us == ts[i := us[i]] && TimerMatches(us[i], REPORT_TIMER, session, serial)
    requires FirstStopped(us, vs, REPORT_TIMER, session, serial)
    ensures TimerAcked(ts, us, vs, i, session, serial)
  {
    assert forall j :: 0 <= j < |ts| && j != i ==> us[j] == ts[j];
    assert us[i].active;
    if j :| 0 <= j < i && TimerMatches(ts[j], REPORT_TIMER, session, serial) {
      assert TimerMatches(us[j], REPORT_TIMER, session, serial) && vs[i] == us[i];
    }
  }

  /**
   * The exchange: a checkpoint makes the receiver write a report and time it in a free slot, the sender
   * acknowledges the report, and the acknowledgement stops that timer. Both session tables stay as they were.
   */
  lemma ReportAcknowledged(e: Engine, s: Segment, t0: int, r: Segment, sender: Engine, t1: int, a: Segment, t2: int)
    requires s.DataSeg? && WellFormed(s) && IsCheckpoint(s.hdr.kind) && r in Process(e, Wire(s), t0).sent
    requires FreeTimer(e.timers) < |e.timers|
    requires a in Process(sender, Wire(r), t1).sent && a.AckSeg? && sender.localId < INT64_LIMIT
    ensures var f := Process(e, Wire(s), t0).engine;
            var g := Process(f, Wire(a), t2).engine;
            && r.ReportSeg? && g == f.(timers := g.timers)
            && TimerAcked(e.timers, f.timers, g.timers, FreeTimer(e.timers), r.hdr.session, r.rptSerial)
  {
    hide Process, Wire, Decodable, TimerMatches, FirstStopped, TimerAcked;
    ReportIsTimed(e, s, t0, r);
    AcksNameReport(sender, r, t1, a);
    SmallReport(r);
    DecodableAck(a);
    var f := Process(e, Wire(s), t0).engine;
    AckStops(f, a, t2);
    AckedFirst(e.timers, f.timers, Process(f, Wire(a), t2).engine.timers, FreeTimer(e.timers), r.hdr.session, r.rptSerial);
  }

  /** A report timer that expires repeats its own report: the acknowledgement of that stops the same timer. */
  lemma RepeatNamesTimer(e: Engine, t: Timer, r: Segment)
    requires t.kind == REPORT_TIMER && r in Resend(e, t).sent
    ensures r.ReportSeg? && WellFormed(r) && r.hdr.session == t.session && r.rptSerial == t.serial
  {
    hide Fits;
  }

  // ---- A repeated checkpoint and its timer ----

  /** The timers a report leaves before its answer starts one. */
  ghost function AfterStop(e: Engine, r: Segment): (ts: seq<Timer>)
    requires r.ReportSeg?
  {
    CancelTimer(e.timers, CHECKPOINT_TIMER, r.hdr.session, r.cpSerial)
  }

  /**
   * A checkpoint written in answer to a report is timed too: with a slot free, its timer is started there under its
   * own session and serial, so it is the report on this checkpoint that stops it.
   */
  lemma RepeatIsTimed(e: Engine, r: Segment, now: int, cp: Segment)
    requires r.ReportSeg? && cp in HandleReport(e, r, now).sent && IsCp(cp)
    requires FreeTimer(AfterStop(e, r)) < |AfterStop(e, r)|
    ensures var i, f := FreeTimer(AfterStop(e, r)), HandleReport(e, r, now).engine;
            && i < |f.timers| && f.timers == AfterStop(e, r)[i := f.timers[i]]
            && TimerMatches(f.timers[i], CHECKPOINT_TIMER, cp.hdr.session, cp.cpSerial) && f.timers[i].retries == 0
  {
    hide Fits, Full, Missing, Slice, CancelTimer;
    var x := e.exports[FindOwnExport(e.exports, e.localId, r.hdr.session)];
    var ps := Missing(x, e.config, r.claims, r.lower, r.upper);
    SegmentsCpLast(x, ps, RED_DATA_CP, x.nextCp);
    EmitAllCpLast(Segments(x, ps, RED_DATA_CP, x.nextCp), x.session, x.nextCp);
    var out := EmitAll(Segments(x, ps, RED_DATA_CP, x.nextCp));
    assert cp in out;
    NothingToSend(x, ps);
    hide Segments, EmitAll;
    var j :| 0 <= j < |out| && out[j] == cp;
  }

  lemma NothingToSend(x: Export, ps: seq<Claim>)
    ensures ps == [] ==> EmitAll(Segments(x, ps, RED_DATA_CP, x.nextCp)) == []
  {
  }

  // ---- A run ----

  /** No timer of that engine's report is running. */
  ghost predicate NotTimed(ts: seq<Timer>, engine: nat, session: nat, serial: nat) {
    forall i :: 0 <= i < |ts| && ts[i].engine == engine ==> !TimerMatches(ts[i], REPORT_TIMER, session, serial)
  }

  /** Slot k is in use for that session, which has moved past the serial. */
  ghost predicate Past(e: Engine, k: nat, engine: nat, session: nat, serial: nat) {
    InUse(e, k) && e.imports[k].engine == engine && e.imports[k].session == session && serial < e.imports[k].nextRpt
  }

  lemma StartOther(ts: seq<Timer>, kind: nat, engine: nat, session: nat, serial: nat, expiry: int, g: nat, n: nat, s: nat)
    requires NotTimed(ts, g, n, s) && !(kind == REPORT_TIMER && engine == g && session == n && serial == s)
    ensures NotTimed(StartTimer(ts, kind, engine, session, serial, expiry), g, n, s)
  {
  }

  lemma CancelOther(ts: seq<Timer>, kind: nat, session: nat, serial: nat, g: nat, n: nat, s: nat)
    requires NotTimed(ts, g, n, s)
    ensures NotTimed(CancelTimer(ts, kind, session, serial), g, n, s)
  {
  }

  lemma DataStartsOther(e: Engine, d: Segment, now: int, k: nat, g: nat, n: nat, s: nat)
    requires d.DataSeg? && NotTimed(e.timers, g, n, s) && Past(e, k, g, n, s) && UniqueImports(e.imports)
    ensures NotTimed(HandleData(e, d, now).engine.timers, g, n, s)
  {
    hide Accept, ReportFor, DeliveryOf, NotTimed, StartTimer, UniqueImports;
    if ImportSlot(e, d.hdr) < |e.imports| && d.offset + |d.payload| <= MAX_BLOCK_SIZE {
      var m := Accept(ImportAt(e, d.hdr), d.hdr.kind, d.offset, d.payload);
      AcceptedKeeps(e, d);
      if d.hdr.engine == g && d.hdr.session == n {
        SameImport(e, k, d.hdr);
      }
      StartOther(e.timers, REPORT_TIMER, m.engine, m.session, m.nextRpt, now + TimerDuration(e.config), g, n, s);
    }
  }

  lemma SameImport(e: Engine, k: nat, h: Header)
    requires UniqueImports(e.imports) && InUse(e, k) && e.imports[k].engine == h.engine && e.imports[k].session == h.session
    ensures ImportAt(e, h) == e.imports[k]
  {
    assert e.imports[k].active;
    var j := FindImport(e.imports, h.engine, h.session);
    assert j < |e.imports| && e.imports[j].active;
  }

  lemma ReportStartsOther(e: Engine, r: Segment, now: int, g: nat, n: nat, s: nat)
    requires r.ReportSeg? && NotTimed(e.timers, g, n, s)
    ensures NotTimed(HandleReport(e, r, now).engine.timers, g, n, s)
  {
    hide NotTimed, StartTimer, CancelTimer, Full, Missing, EmitAll, Segments, Fits;
    CancelOther(e.timers, CHECKPOINT_TIMER, r.hdr.session, r.cpSerial, g, n, s);
    var k := FindOwnExport(e.exports, e.localId, r.hdr.session);
    if k < |e.exports| && !Full(r.claims, e.exports[k].len) {
      var x := HandleReport(e, r, now).engine.exports[k];
      StartOther(CancelTimer(e.timers, CHECKPOINT_TIMER, r.hdr.session, r.cpSerial), CHECKPOINT_TIMER, x.engine, x.session,
                 LastSerial(x.nextCp), now + TimerDuration(e.config), g, n, s);
    }
  }

  lemma BodyStartsOther(e: Engine, h: Header, body: seq<byte>, now: int, k: nat, g: nat, n: nat, s: nat)
    requires NotTimed(e.timers, g, n, s) && Past(e, k, g, n, s) && UniqueImports(e.imports)
    ensures NotTimed(ProcessBody(e, h, body, now).engine.timers, g, n, s)
  {
    hide NotTimed, HandleData, HandleReport, CancelTimer, Fits, UniqueImports;
    if h.kind <= RED_DATA_EORP_CP && DecodeData(h, body).Some? {
      DataStartsOther(e, DecodeData(h, body).value, now, k, g, n, s);
    } else if h.kind == REPORT && DecodeReport(h, body).Some? {
      ReportStartsOther(e, DecodeReport(h, body).value, now, g, n, s);
    } else if h.kind == REPORT_ACK && DecodeAck(h, body).Some? {
      CancelOther(e.timers, REPORT_TIMER, h.session, DecodeAck(h, body).value.rptSerial, g, n, s);
    } else {
      CancelOther(e.timers, CANCEL_TIMER, h.session, 0, g, n, s);
    }
  }

  /** While its session is in use, no input starts a timer for a report the session has moved past. */
  lemma StaysUntimed(e: Engine, input: Input, now: int, k: nat, g: nat, n: nat, s: nat)
    requires ConfigOk(e.config) && NotTimed(e.timers, g, n, s) && Past(e, k, g, n, s) && UniqueImports(e.imports)
    ensures NotTimed(Respond(e, input, now).engine.timers, g, n, s)
  {
    hide NotTimed, ProcessBody, FireFrom, Past, UniqueImports, StartTimer, Fits, BlockSegments, EmitUntilStuck, Padded;
    match input
    case Submit(remote, block) =>
      if CanSend(e, block) {
        var e1 := AfterOpen(e, remote, block);
        var j := FindOwnExport(e1.exports, e1.localId, e1.nextSession - 1);
        if j < |e1.exports| {
          var x := e1.exports[j];
          StartOther(e.timers, CHECKPOINT_TIMER, x.engine, x.session, LastSerial(x.nextCp), now + TimerDuration(e.config), g, n, s);
        }
      }
    case Octets(buf) =>
      if DecodeHeader(buf).Some? {
        BodyStartsOther(e, DecodeHeader(buf).value.hdr, DecodeHeader(buf).value.body, now, k, g, n, s);
      }
    case Abort(m) =>
      var j := FindExport(e.exports, m);
      if j < |e.exports| {
        StartOther(e.timers, CANCEL_TIMER, e.exports[j].engine, m, 0, now + TimerDuration(e.config), g, n, s);
      }
    case Tick =>
      FireTimers(e, 0, now);
      TickStartsNone(e, now, g, n, s);
  }

  lemma TickStartsNone(e: Engine, now: int, g: nat, n: nat, s: nat)
    requires NotTimed(e.timers, g, n, s)
    ensures NotTimed(FireExpired(e, now).engine.timers, g, n, s)
  {
    hide FireFrom;
    FireTimers(e, 0, now);
  }

  /** A sweep closes an import session only on the last retry of a report timer of its number. */
  lemma {:induction false} ClosedByTimer(e: Engine, i: nat, now: int, k: nat)
    requires InUse(e, k) && !InUse(FireFrom(e, i, now).engine, k)
    ensures exists j :: i <= j < |e.timers| && LastRetry(e, j, now, e.imports[k].session)
    decreases |e.timers| - i
  {
    if i < |e.timers| {
      hide FireSlot, LastRetry;
      var f := FireSlot(e, i, now).engine;
      SlotCloses(e, i, now, k);
      FireSlotTimers(e, i, now);
      if InUse(f, k) {
        ClosedByTimer(f, i + 1, now, k);
        var j :| i + 1 <= j < |f.timers| && LastRetry(f, j, now, f.imports[k].session);
        SameRetry(e, f, j, now, e.imports[k].session);
      }
    }
  }

  /** A report timer of that session number is about to give up. */
  ghost predicate LastRetry(e: Engine, j: nat, now: int, session: nat) {
    && j < |e.timers| && Expired(e.timers[j], now) && e.timers[j].kind == REPORT_TIMER && e.timers[j].session == session
    && e.timers[j].retries + 1 >= AsInt32(e.config.maxRetries)
  }

  lemma SameRetry(e: Engine, f: Engine, j: nat, now: int, session: nat)
    requires LastRetry(f, j, now, session) && f.config == e.config && j < |e.timers| && f.timers[j] == e.timers[j]
    ensures LastRetry(e, j, now, session)
  {
  }

  lemma SlotCloses(e: Engine, i: nat, now: int, k: nat)
    requires i < |e.timers| && InUse(e, k)
    ensures var f := FireSlot(e, i, now).engine;
            if InUse(f, k) then f.imports[k] == e.imports[k] else LastRetry(e, i, now, e.imports[k].session)
  {
    hide Fits;
  }

  /** Over a run: no timer for a report the session has moved past comes back while the session is in use. */
  lemma {:induction false} NeverTimedAgain(config: Config, id: nat, inputs: seq<(Input, int)>, k: nat, p: nat, q: nat, s: nat)
    requires ConfigOk(config) && p <= q <= |inputs| && forall x :: p <= x <= q ==> InUse(At(config, id, inputs, x), k)
    requires InUse(At(config, id, inputs, p), k)
             && var m := At(config, id, inputs, p).imports[k];
                s < m.nextRpt && Untimed(At(config, id, inputs, p).timers, m.session, s)
    ensures k < |At(config, id, inputs, p).imports|
            && var m := At(config, id, inputs, p).imports[k];
            && Past(At(config, id, inputs, q), k, m.engine, m.session, s)
            && NotTimed(At(config, id, inputs, q).timers, m.engine, m.session, s)
    decreases q
  {
    assert InUse(At(config, id, inputs, p), k) && InUse(At(config, id, inputs, q), k);
    var m := At(config, id, inputs, p).imports[k];
    if p < q {
      var e := At(config, id, inputs, q - 1);
      assert InUse(e, k);
      hide Respond, Live, NotTimed, Untimed;
      NeverTimedAgain(config, id, inputs, k, p, q - 1, s);
      AlwaysDisciplined(config, id, inputs[..q - 1]);
      AtNext(config, id, inputs, q - 1);
      StaysUntimed(e, inputs[q - 1].0, inputs[q - 1].1, k, m.engine, m.session, s);
      StepRises(e, inputs[q - 1].0, inputs[q - 1].1, k);
    }
  }

  /**
   * Over every run, on any input: once no timer of a report is running, as after its acknowledgement, and its
   * session is in use and stays so, the session is never given up because of that report. If an expiry closes it,
   * it is on the last retry of a timer of another report.
   */
  lemma AcknowledgedNotGivenUp(config: Config, id: nat, inputs: seq<(Input, int)>, k: nat, p: nat, q: nat, s: nat)
    requires ConfigOk(config) && p <= q < |inputs| && forall x :: p <= x <= q ==> InUse(At(config, id, inputs, x), k)
    requires InUse(At(config, id, inputs, p), k)
             && var m := At(config, id, inputs, p).imports[k];
                s < m.nextRpt && Untimed(At(config, id, inputs, p).timers, m.session, s)
    requires inputs[q].0.Tick? && !InUse(At(config, id, inputs, q + 1), k)
    ensures var m, e := At(config, id, inputs, p).imports[k], At(config, id, inputs, q);
            exists j :: 0 <= j < |e.timers| && LastRetry(e, j, inputs[q].1, m.session)
                        && !(e.timers[j].engine == m.engine && e.timers[j].serial == s)
  {
    assert InUse(At(config, id, inputs, p), k) && InUse(At(config, id, inputs, q), k);
    var m, e := At(config, id, inputs, p).imports[k], At(config, id, inputs, q);
    AtNext(config, id, inputs, q);
    NeverTimedAgain(config, id, inputs, k, p, q, s);
    hide Live, FireFrom, At;
    ClosedByTimer(e, 0, inputs[q].1, k);
    var j :| 0 <= j < |e.timers| && LastRetry(e, j, inputs[q].1, e.imports[k].session);
    assert !(e.timers[j].engine == m.engine && e.timers[j].serial == s);
  }
}
