/** The timer facts hold in every run of an engine, on any input. */
module LtpTimerRuns {
  import opened Bytes
  import opened LtpSegment
  import opened LtpState
  import opened LtpSteps
  import opened LtpDiscipline
  import opened LtpTimers

  /** An active timer has firings left, and a checkpoint timer's serial is one its session has moved past. */
  ghost predicate TimerOk(t: Timer, quota: int, xs: seq<Export>, next: nat) {
    t.active ==>
      && 0 <= t.retries < quota
      && (t.kind == CHECKPOINT_TIMER ==>
            && t.session < next
            && forall k :: 0 <= k < |xs| && xs[k].active && xs[k].session == t.session ==> t.serial < xs[k].nextCp)
  }

  ghost predicate Armed(ts: seq<Timer>, quota: int, xs: seq<Export>, next: nat) {
    forall i :: 0 <= i < |ts| ==> TimerOk(ts[i], quota, xs, next)
  }

  ghost predicate EngineArmed(e: Engine) {
    Armed(e.timers, Quota(e.config), e.exports, e.nextSession)
  }

  lemma ArmedEvolves(ts: seq<Timer>, quota: int, xs: seq<Export>, ys: seq<Export>, next: nat)
    requires Armed(ts, quota, xs, next) && Evolves(xs, ys)
    ensures Armed(ts, quota, ys, next)
  {
    forall i | 0 <= i < |ts| ensures TimerOk(ts[i], quota, ys, next) {
      assert TimerOk(ts[i], quota, xs, next);
    }
  }

  lemma ArmedStart(ts: seq<Timer>, quota: int, xs: seq<Export>, next: nat, kind: nat, engine: nat, session: nat,
                   serial: nat, expiry: int)
    requires Armed(ts, quota, xs, next) && quota >= 1
    requires kind == CHECKPOINT_TIMER ==>
               && session < next
               && forall k :: 0 <= k < |xs| && xs[k].active && xs[k].session == session ==> serial < xs[k].nextCp
    ensures Armed(StartTimer(ts, kind, engine, session, serial, expiry), quota, xs, next)
  {
  }

  lemma ArmedCancel(ts: seq<Timer>, quota: int, xs: seq<Export>, next: nat, kind: nat, session: nat, serial: nat)
    requires Armed(ts, quota, xs, next)
    ensures Armed(CancelTimer(ts, kind, session, serial), quota, xs, next)
  {
    var k := FindTimer(ts, kind, session, serial);
    if k < |ts| {
      assert TimerOk(ts[k], quota, xs, next);
    }
  }

  // ---- Each input ----

  lemma DataArms(e: Engine, s: Segment, now: int)
    requires EngineArmed(e) && s.DataSeg?
    ensures EngineArmed(HandleData(e, s, now).engine)
  {
    var slot := ImportSlot(e, s.hdr);
    if slot < |e.imports| && s.offset + |s.payload| <= MAX_BLOCK_SIZE {
      var m := Accept(ImportAt(e, s.hdr), s.hdr.kind, s.offset, s.payload);
      ArmedStart(e.timers, Quota(e.config), e.exports, e.nextSession, REPORT_TIMER, m.engine, m.session, m.nextRpt,
                 now + TimerDuration(e.config));
    }
  }

  lemma ReportArms(e: Engine, s: Segment, now: int)
    requires EngineArmed(e) && UniqueExports(e.exports, e.nextSession) && s.ReportSeg?
    requires forall k :: 0 <= k < |e.exports| && e.exports[k].active ==> e.exports[k].nextCp > 0
    ensures EngineArmed(HandleReport(e, s, now).engine)
  {
    var k := FindOwnExport(e.exports, e.localId, s.hdr.session);
    if k < |e.exports| {
      var q, f := Quota(e.config), HandleReport(e, s, now).engine;
      ArmedCancel(e.timers, q, e.exports, e.nextSession, CHECKPOINT_TIMER, s.hdr.session, s.cpSerial);
      var ts := CancelTimer(e.timers, CHECKPOINT_TIMER, s.hdr.session, s.cpSerial);
      ArmedEvolves(ts, q, e.exports, f.exports, e.nextSession);
      if !Full(s.claims, e.exports[k].len) {
        var x1 := f.exports[k];
        ArmedStart(ts, q, f.exports, e.nextSession, CHECKPOINT_TIMER, x1.engine, x1.session, LastSerial(x1.nextCp),
                   now + TimerDuration(e.config));
      }
    }
  }

  lemma SubmitArms(e: Engine, remote: nat, block: seq<byte>, now: int)
    requires EngineArmed(e) && UniqueExports(e.exports, e.nextSession) && ConfigOk(e.config)
    ensures EngineArmed(SendBlock(e, remote, block, now).engine)
  {
    if CanSend(e, block) {
      var e1 := AfterOpen(e, remote, block);
      var k := FindOwnExport(e1.exports, e1.localId, e1.nextSession - 1);
      OpenArms(e, remote, block);
      if k < |e1.exports| {
        NewestIs(e, remote, block, k);
        var x := e1.exports[k];
        ArmedStart(e1.timers, Quota(e.config), e1.exports, e1.nextSession, CHECKPOINT_TIMER, x.engine, x.session,
                   LastSerial(x.nextCp), now + TimerDuration(e1.config));
      }
    }
  }

  lemma OpenArms(e: Engine, remote: nat, block: seq<byte>)
    requires EngineArmed(e) && |block| <= MAX_BLOCK_SIZE && FreeExport(e.exports) < |e.exports|
    ensures EngineArmed(AfterOpen(e, remote, block))
  {
    var e1 := AfterOpen(e, remote, block);
    forall i | 0 <= i < |e.timers| ensures TimerOk(e.timers[i], Quota(e.config), e1.exports, e1.nextSession) {
      assert TimerOk(e.timers[i], Quota(e.config), e.exports, e.nextSession);
    }
  }

  /** The search for the newest session finds the one just opened. */
  lemma NewestIs(e: Engine, remote: nat, block: seq<byte>, k: nat)
    requires UniqueExports(e.exports, e.nextSession) && |block| <= MAX_BLOCK_SIZE && FreeExport(e.exports) < |e.exports|
    requires var e1 := AfterOpen(e, remote, block);
             k == FindOwnExport(e1.exports, e1.localId, e1.nextSession - 1) < |e1.exports|
    ensures k == FreeExport(e.exports)
    ensures var e1 := AfterOpen(e, remote, block);
            && e1.exports[k] == OpenedExport(e, remote, block)
            && forall j :: 0 <= j < |e1.exports| && e1.exports[j].active && e1.exports[j].session == e.nextSession ==> j == k
  {
  }

  /**
   * A block sent in full leaves its checkpoint timed: with a timer slot free, exactly one timer is started,
   * for the session just opened and the serial its last segment carries.
   */
  lemma SentBlockIsTimed(e: Engine, remote: nat, block: seq<byte>, now: int)
    requires UniqueExports(e.exports, e.nextSession) && ConfigOk(e.config) && CanSend(e, block)
    requires FreeTimer(e.timers) < |e.timers|
    requires |EmitUntilStuck(BlockSegments(e, remote, block))| == |BlockSegments(e, remote, block)|
    ensures SendBlock(e, remote, block, now).engine.timers
         == e.timers[FreeTimer(e.timers) := Timer(true, CHECKPOINT_TIMER, e.localId, e.nextSession, 1, 0,
                                                  now + TimerDuration(e.config))]
  {
    hide BlockSegments, EmitUntilStuck;
    var e1 := AfterOpen(e, remote, block);
    var k := FindOwnExport(e1.exports, e1.localId, e1.nextSession - 1);
    assert e1.exports[FreeExport(e.exports)] == OpenedExport(e, remote, block);
    NewestIs(e, remote, block, k);
  }

  lemma CancelArms(e: Engine, h: Header)
    requires EngineArmed(e)
    ensures EngineArmed(HandleCancel(e, h).engine)
  {
    var q := Quota(e.config);
    CloseExportKeeps(e, h.session);
    var x := CloseExport(e, h.session);
    ArmedEvolves(e.timers, q, e.exports, x.exports, e.nextSession);
    assert x.timers == e.timers && x.config == e.config;
    ArmedCancel(e.timers, q, e.exports, e.nextSession, CANCEL_TIMER, h.session, 0);
    ArmedCancel(e.timers, q, x.exports, e.nextSession, CANCEL_TIMER, h.session, 0);
    CloseImportArms(e, h.engine, h.session);
  }

  lemma CloseImportArms(e: Engine, engine: nat, session: nat)
    ensures var f := CloseImport(e, engine, session);
            f.timers == e.timers && f.exports == e.exports && f.nextSession == e.nextSession && f.config == e.config
  {
  }

  ghost predicate CountersStarted(e: Engine) {
    forall k :: 0 <= k < |e.exports| && e.exports[k].active ==> e.exports[k].nextCp > 0
  }

  lemma OctetsArm(e: Engine, buf: seq<byte>, now: int)
    requires EngineArmed(e) && UniqueExports(e.exports, e.nextSession) && CountersStarted(e)
    ensures EngineArmed(Process(e, buf, now).engine)
  {
    if DecodeHeader(buf).Some? {
      var d := DecodeHeader(buf).value;
      BodyArms(e, d.hdr, d.body, now);
    }
  }

  lemma BodyArms(e: Engine, h: Header, body: seq<byte>, now: int)
    requires EngineArmed(e) && UniqueExports(e.exports, e.nextSession) && CountersStarted(e)
    ensures EngineArmed(ProcessBody(e, h, body, now).engine)
  {
    if h.kind <= RED_DATA_EORP_CP {
      if DecodeData(h, body).Some? { DataArms(e, DecodeData(h, body).value, now); }
    } else if h.kind == REPORT {
      if DecodeReport(h, body).Some? { ReportArms(e, DecodeReport(h, body).value, now); }
    } else if h.kind == REPORT_ACK {
      ArmedCancels(e, h, body);
    } else if h.kind >= CANCEL_BY_SENDER {
      CancelArms(e, h);
    }
  }

  lemma ArmedCancels(e: Engine, h: Header, body: seq<byte>)
    requires EngineArmed(e)
    ensures DecodeAck(h, body).Some? ==> EngineArmed(HandleAck(e, DecodeAck(h, body).value).engine)
  {
    if DecodeAck(h, body).Some? {
      var s := DecodeAck(h, body).value;
      ArmedCancel(e.timers, Quota(e.config), e.exports, e.nextSession, REPORT_TIMER, s.hdr.session, s.rptSerial);
    }
  }

  // ---- Timers ----

  lemma FireSlotEvolves(e: Engine, i: nat, now: int)
    requires i < |e.timers|
    ensures var f := FireSlot(e, i, now).engine; Evolves(e.exports, f.exports) && f.nextSession == e.nextSession
  {
    var t := e.timers[i];
    CloseExportKeeps(e, t.session);
    GiveUpEvolves(e, t);
    ResendEvolves(e, t);
  }

  lemma GiveUpEvolves(e: Engine, t: Timer)
    ensures var g := GiveUp(e, t); Evolves(e.exports, g.exports) && g.nextSession == e.nextSession
  {
    CloseExportKeeps(e, t.session);
  }

  lemma ResendEvolves(e: Engine, t: Timer)
    ensures var g := Resend(e, t).engine; Evolves(e.exports, g.exports) && g.nextSession == e.nextSession
  {
  }

  lemma {:induction false} FireArms(e: Engine, i: nat, now: int)
    requires EngineArmed(e)
    ensures EngineArmed(FireFrom(e, i, now).engine)
    decreases |e.timers| - i
  {
    if i < |e.timers| {
      var f := FireSlot(e, i, now).engine;
      FireSlotTimers(e, i, now);
      FireSlotEvolves(e, i, now);
      ArmedEvolves(e.timers, Quota(e.config), e.exports, f.exports, e.nextSession);
      assert TimerOk(e.timers[i], Quota(e.config), f.exports, e.nextSession);
      FiredBudget(e.timers[i], e.config, now);
      FireArms(f, i + 1, now);
    }
  }

  lemma EvolvesCounters(e: Engine, f: Engine)
    requires CountersStarted(e) && Evolves(e.exports, f.exports)
    ensures CountersStarted(f)
  {
  }

  lemma {:induction false} FireEvolves(e: Engine, i: nat, now: int)
    ensures Evolves(e.exports, FireFrom(e, i, now).engine.exports)
    decreases |e.timers| - i
  {
    if i < |e.timers| {
      FireSlotEvolves(e, i, now);
      FireSlotTimers(e, i, now);
      FireEvolves(FireSlot(e, i, now).engine, i + 1, now);
    }
  }

  lemma RespondCounters(e: Engine, input: Input, now: int)
    requires ConfigOk(e.config) && CountersStarted(e)
    ensures CountersStarted(Respond(e, input, now).engine)
  {
    match input
    case Submit(remote, block) =>
    case Octets(buf) => ProcessCounters(e, buf, now);
    case Abort(n) =>
    case Tick => FireEvolves(e, 0, now); EvolvesCounters(e, FireExpired(e, now).engine);
  }

  lemma ProcessCounters(e: Engine, buf: seq<byte>, now: int)
    requires CountersStarted(e)
    ensures CountersStarted(Process(e, buf, now).engine)
  {
    if DecodeHeader(buf).Some? {
      BodyCounters(e, DecodeHeader(buf).value.hdr, DecodeHeader(buf).value.body, now);
    }
  }

  lemma BodyCounters(e: Engine, h: Header, body: seq<byte>, now: int)
    requires CountersStarted(e)
    ensures CountersStarted(ProcessBody(e, h, body, now).engine)
  {
    if h.kind <= RED_DATA_EORP_CP {
      if DecodeData(h, body).Some? { DataCounters(e, DecodeData(h, body).value, now); }
    } else if h.kind == REPORT {
      if DecodeReport(h, body).Some? { ReportCounters(e, DecodeReport(h, body).value, now); }
    } else {
      CloseExportKeeps(e, h.session);
    }
  }

  lemma DataCounters(e: Engine, s: Segment, now: int)
    requires s.DataSeg?
    ensures HandleData(e, s, now).engine.exports == e.exports
  {
  }

  lemma ReportCounters(e: Engine, s: Segment, now: int)
    requires CountersStarted(e) && s.ReportSeg?
    ensures CountersStarted(HandleReport(e, s, now).engine)
  {
  }

  /**
   * In every run, on any input, each active timer has between one and its quota of firings left, and each
   * checkpoint timer bears a serial below its session's next one.
   */
  lemma {:induction false} AlwaysArmed(config: Config, id: nat, inputs: seq<(Input, int)>)
    requires ConfigOk(config)
    ensures var e := Live(History(InitialEngine(config, id), []), inputs).engine;
            && EngineArmed(e) && CountersStarted(e) && TimersOk(e.timers, Quota(e.config))
    decreases |inputs|
  {
    var h0 := History(InitialEngine(config, id), []);
    if inputs != [] {
      var p := Live(h0, inputs[..|inputs| - 1]);
      var last := inputs[|inputs| - 1];
      AlwaysArmed(config, id, inputs[..|inputs| - 1]);
      AlwaysDisciplined(config, id, inputs[..|inputs| - 1]);
      RespondCounters(p.engine, last.0, last.1);
      RespondKeepsConfig(p.engine, last.0, last.1);
      RespondArms(p, last.0, last.1);
    }
    ArmedTimersOk(Live(h0, inputs).engine);
  }

  lemma ArmedTimersOk(e: Engine)
    requires EngineArmed(e)
    ensures TimersOk(e.timers, Quota(e.config))
  {
    forall i | 0 <= i < |e.timers| && e.timers[i].active ensures 0 <= e.timers[i].retries < Quota(e.config) {
      assert TimerOk(e.timers[i], Quota(e.config), e.exports, e.nextSession);
    }
  }

  lemma RespondArms(p: History, input: Input, now: int)
    requires ConfigOk(p.engine.config) && EngineArmed(p.engine) && CountersStarted(p.engine) && Disciplined(p)
    ensures EngineArmed(Respond(p.engine, input, now).engine)
  {
    match input
    case Submit(remote, block) => SubmitArms(p.engine, remote, block, now);
    case Octets(buf) => OctetsArm(p.engine, buf, now);
    case Abort(n) => AbortArms(p.engine, n, now);
    case Tick => FireArms(p.engine, 0, now);
  }

  lemma AbortArms(e: Engine, session: nat, now: int)
    requires EngineArmed(e)
    ensures EngineArmed(CancelSession(e, session, now).engine)
  {
    var k := FindExport(e.exports, session);
    if k < |e.exports| {
      var xs := e.exports[k := e.exports[k].(cancelled := true)];
      ArmedEvolves(e.timers, Quota(e.config), e.exports, xs, e.nextSession);
      ArmedStart(e.timers, Quota(e.config), xs, e.nextSession, CANCEL_TIMER, e.exports[k].engine, session, 0,
                 now + TimerDuration(e.config));
    }
  }
}
