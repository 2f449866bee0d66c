/** How long a timer runs, in terms of the one-way light time: two crossings of the link and 200 ms. */
module LtpTiming {
  import opened Bytes
  import opened LtpSegment
  import opened LtpState
  import opened LtpSegmentation
  import opened LtpSteps
  import opened LtpDiscipline
  import opened LtpTimers
  import opened LtpTimerRuns
  import opened LtpSerials
  import opened LtpUnanswered

  /** Started at that time, the timer has expired from two one-way times and 200 ms later on, and not before. */
  ghost predicate RunsFrom(t: Timer, owltMs: nat, start: int) {
    t.active && forall later: int :: Expired(t, later) <==> start + owltMs * MS + owltMs * MS + 200 * MS <= later
  }

  /** Every timer that is running is one that was, unchanged, or runs from now. */
  ghost predicate StartedNow(ts: seq<Timer>, us: seq<Timer>, owltMs: nat, now: int) {
    |us| == |ts| && forall i :: 0 <= i < |us| && us[i].active ==> us[i] == ts[i] || RunsFrom(us[i], owltMs, now)
  }

  lemma DurationIs(c: Config, t: Timer, now: int)
    requires t.active && t.expiry == now + TimerDuration(c)
    ensures RunsFrom(t, c.owltMs, now)
  {
  }

  lemma StartRuns(ts: seq<Timer>, c: Config, kind: nat, engine: nat, session: nat, serial: nat, now: int)
    ensures StartedNow(ts, StartTimer(ts, kind, engine, session, serial, now + TimerDuration(c)), c.owltMs, now)
  {
    DurationIs(c, Timer(true, kind, engine, session, serial, 0, now + TimerDuration(c)), now);
  }

  lemma CancelThenStart(ts: seq<Timer>, us: seq<Timer>, kind: nat, session: nat, serial: nat, owltMs: nat, now: int)
    requires StartedNow(CancelTimer(ts, kind, session, serial), us, owltMs, now)
    ensures StartedNow(ts, us, owltMs, now)
  {
    hide RunsFrom;
  }

  // ---- Each operation that starts a timer ----

  lemma SendRuns(e: Engine, remote: nat, block: seq<byte>, now: int)
    requires ConfigOk(e.config)
    ensures StartedNow(e.timers, SendBlock(e, remote, block, now).engine.timers, e.config.owltMs, now)
  {
    hide RunsFrom, TimerDuration, StartTimer, BlockSegments, EmitUntilStuck, Padded;
    if CanSend(e, block) {
      var e1 := AfterOpen(e, remote, block);
      var k := FindOwnExport(e1.exports, e1.localId, e1.nextSession - 1);
      if k < |e1.exports| {
        var x := e1.exports[k];
        StartRuns(e.timers, e.config, CHECKPOINT_TIMER, x.engine, x.session, LastSerial(x.nextCp), now);
      }
    }
  }

  lemma DataRuns(e: Engine, s: Segment, now: int)
    requires s.DataSeg?
    ensures StartedNow(e.timers, HandleData(e, s, now).engine.timers, e.config.owltMs, now)
  {
    hide RunsFrom, TimerDuration, StartTimer, Accept, ReportFor, DeliveryOf;
    if ImportSlot(e, s.hdr) < |e.imports| && s.offset + |s.payload| <= MAX_BLOCK_SIZE {
      var m := Accept(ImportAt(e, s.hdr), s.hdr.kind, s.offset, s.payload);
      StartRuns(e.timers, e.config, REPORT_TIMER, m.engine, m.session, m.nextRpt, now);
    }
  }

  lemma ReportRuns(e: Engine, s: Segment, now: int)
    requires s.ReportSeg?
    ensures StartedNow(e.timers, HandleReport(e, s, now).engine.timers, e.config.owltMs, now)
  {
    hide RunsFrom, TimerDuration, StartTimer, Missing, Segments, EmitAll, Full, Fits;
    var k := FindOwnExport(e.exports, e.localId, s.hdr.session);
    if k < |e.exports| && !Full(s.claims, e.exports[k].len) {
      var ts := CancelTimer(e.timers, CHECKPOINT_TIMER, s.hdr.session, s.cpSerial);
      var x := HandleReport(e, s, now).engine.exports[k];
      StartRuns(ts, e.config, CHECKPOINT_TIMER, x.engine, x.session, LastSerial(x.nextCp), now);
      CancelThenStart(e.timers, HandleReport(e, s, now).engine.timers, CHECKPOINT_TIMER, s.hdr.session, s.cpSerial,
                      e.config.owltMs, now);
    }
  }

  lemma AbortRuns(e: Engine, session: nat, now: int)
    ensures StartedNow(e.timers, CancelSession(e, session, now).engine.timers, e.config.owltMs, now)
  {
    hide RunsFrom, TimerDuration, StartTimer, Fits;
    var k := FindExport(e.exports, session);
    if k < |e.exports| {
      StartRuns(e.timers, e.config, CANCEL_TIMER, e.exports[k].engine, session, 0, now);
    }
  }

  /** A timer that fires and is not given up runs again, from the time it fired. */
  lemma FiredRuns(t: Timer, c: Config, now: int)
    ensures var u := Fired(t, c, now); u.active ==> u == t || RunsFrom(u, c.owltMs, now)
  {
    if Fired(t, c, now).active && Expired(t, now) {
      DurationIs(c, Fired(t, c, now), now);
    }
  }

  lemma TickRuns(e: Engine, now: int)
    ensures StartedNow(e.timers, FireExpired(e, now).engine.timers, e.config.owltMs, now)
  {
    hide RunsFrom, FireFrom, Fired;
    FireTimers(e, 0, now);
    forall i | 0 <= i < |e.timers| && Fired(e.timers[i], e.config, now).active
      ensures Fired(e.timers[i], e.config, now) == e.timers[i] || RunsFrom(Fired(e.timers[i], e.config, now), e.config.owltMs, now)
    {
      FiredRuns(e.timers[i], e.config, now);
    }
  }

  lemma BodyRuns(e: Engine, h: Header, body: seq<byte>, now: int)
    ensures StartedNow(e.timers, ProcessBody(e, h, body, now).engine.timers, e.config.owltMs, now)
  {
    hide RunsFrom, HandleData, HandleReport, Fits;
    if h.kind <= RED_DATA_EORP_CP && DecodeData(h, body).Some? {
      DataRuns(e, DecodeData(h, body).value, now);
    } else if h.kind == REPORT && DecodeReport(h, body).Some? {
      ReportRuns(e, DecodeReport(h, body).value, now);
    }
  }

  /**
   * On every input: whatever timer is running afterwards is one that was running before, as it was, or expires
   * exactly two one-way times and 200 ms after the input.
   */
  lemma TimersRunTwoCrossings(e: Engine, input: Input, now: int)
    requires ConfigOk(e.config)
    ensures StartedNow(e.timers, Respond(e, input, now).engine.timers, e.config.owltMs, now)
  {
    hide StartedNow, ProcessBody, SendBlock, FireFrom, CancelSession;
    match input
    case Submit(remote, block) => SendRuns(e, remote, block, now);
    case Octets(buf) =>
      if DecodeHeader(buf).Some? {
        BodyRuns(e, DecodeHeader(buf).value.hdr, DecodeHeader(buf).value.body, now);
      } else {
        SameRuns(e.timers, e.config.owltMs, now);
      }
    case Abort(n) => AbortRuns(e, n, now);
    case Tick => TickRuns(e, now);
  }

  lemma SameRuns(ts: seq<Timer>, owltMs: nat, now: int)
    ensures StartedNow(ts, ts, owltMs, now)
  {
  }

  // ---- A report that crosses the link in time ----

  /** A running checkpoint timer is untouched until it expires, unless a report names its serial. */
  lemma {:induction false} UntouchedUntilDue(h: History, inputs: seq<(Input, int)>, i: nat)
    requires ConfigOk(h.engine.config) && Running(h.engine.timers, i)
    requires NeverStopped(inputs, h.engine.timers[i].session, h.engine.timers[i].serial)
    requires forall p :: 0 <= p < |inputs| ==> !Expired(h.engine.timers[i], inputs[p].1)
    ensures SameTimer(h.engine.timers, Live(h, inputs).engine.timers, i)
    decreases |inputs|
  {
    if inputs != [] {
      var prev, last := inputs[..|inputs| - 1], inputs[|inputs| - 1];
      var e := Live(h, prev).engine;
      UntouchedUntilDue(h, prev, i);
      hide Respond, IsStop;
      InputPasses(e, last.0, last.1, i);
    }
  }

  /** The checkpoint a block's first transmission ends with. */
  lemma LastIsCheckpoint(e: Engine, remote: nat, block: seq<byte>)
    requires ConfigOk(e.config) && CanSend(e, block)
    ensures var ss := BlockSegments(e, remote, block);
            && ss != []
            && var cp := ss[|ss| - 1];
               WellFormed(cp) && IsCp(cp) && cp.cpSerial == 1 && cp.hdr.session == e.nextSession && cp.hdr.engine == e.localId
  {
    hide Padded, Slice;
    assert Pieces(0, |block|, e.config.mtu) != [];
  }

  /**
   * A block is sent in full, its checkpoint crosses the link, and the report that answers it crosses back, each
   * within one one-way time. Whatever else the sender receives in between, and however often its timers are
   * polled, the report finds the checkpoint's timer running and never yet expired.
   */
  lemma ReportInTime(h: History, remote: nat, block: seq<byte>, t0: int, inputs: seq<(Input, int)>, peer: Engine, t1: int,
                     r: Segment, t2: int)
    requires ConfigOk(h.engine.config) && Disciplined(h) && CanSend(h.engine, block)
    requires FreeTimer(h.engine.timers) < |h.engine.timers|
    requires var f := SendBlock(h.engine, remote, block, t0);
             && f.sent == BlockSegments(h.engine, remote, block) != []
             && r in Process(peer, Wire(f.sent[|f.sent| - 1]), t1).sent
    requires t1 <= t0 + h.engine.config.owltMs * MS && t2 <= t1 + h.engine.config.owltMs * MS
    requires forall p :: 0 <= p < |inputs| ==> inputs[p].1 <= t2
    requires NeverStopped(inputs, h.engine.nextSession, 1)
    ensures var i, f := FreeTimer(h.engine.timers), SendBlock(h.engine, remote, block, t0);
            var e := Live(History(f.engine, h.wire + f.sent), inputs).engine;
            && r.ReportSeg? && r.hdr.session == h.engine.nextSession && r.cpSerial == 1
            && i < |e.timers| && TimerMatches(e.timers[i], CHECKPOINT_TIMER, r.hdr.session, r.cpSerial)
            && e.timers[i].retries == 0 && !Expired(e.timers[i], t2)
  {
    var e0 := h.engine;
    var i, f := FreeTimer(e0.timers), SendBlock(e0, remote, block, t0);
    LastIsCheckpoint(e0, remote, block);
    var cp := f.sent[|f.sent| - 1];
    SentBlockIsTimed(e0, remote, block, t0);
    DurationIs(e0.config, f.engine.timers[i], t0);
    SendKeepsConfig(e0, remote, block, t0);
    hide SendBlock, BlockSegments, Process, Wire, Disciplined, Live, IsStop, TimerDuration;
    AnswersNameSerial(peer, cp, t1, r);
    AnswersNameSession(peer, cp, t1, r);
    UntouchedUntilDue(History(f.engine, h.wire + f.sent), inputs, i);
  }

  lemma SendKeepsConfig(e: Engine, remote: nat, block: seq<byte>, now: int)
    requires ConfigOk(e.config)
    ensures SendBlock(e, remote, block, now).engine.config == e.config
  {
  }

  lemma AnswersNameSession(peer: Engine, s: Segment, now: int, r: Segment)
    requires s.DataSeg? && WellFormed(s) && IsCheckpoint(s.hdr.kind) && r in Process(peer, Wire(s), now).sent
    ensures r.ReportSeg? && r.hdr.session == s.hdr.session
  {
    hide Process, Wire, Decodable, HandleData;
    ProcessWire(peer, s, now);
    DataAnswer(peer, s, now, r);
  }
}
