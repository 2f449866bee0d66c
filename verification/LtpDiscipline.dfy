/**
 * What an engine keeps whatever octets it is fed: session numbers and checkpoint serials are never used
 * twice, and a session is open in at most one slot.
 */
module LtpDiscipline {
  import opened Bytes
  import opened Sequences
  import opened ClaimMap
  import opened LtpSegment
  import opened LtpState
  import opened LtpSegmentation
  import opened LtpSteps

  datatype Input =
    | Submit(remote: nat, block: seq<byte>)
    | Octets(buf: seq<byte>)
    | Abort(session: nat)
    | Tick

  /** An engine and everything it has written, in order. */
  datatype History = History(engine: Engine, wire: seq<Segment>)

  function Respond(e: Engine, input: Input, now: int): Effect
    requires ConfigOk(e.config)
  {
    match input
    case Submit(remote, block) => SendBlock(e, remote, block, now)
    case Octets(buf) => Process(e, buf, now)
    case Abort(n) => CancelSession(e, n, now)
    case Tick => FireExpired(e, now)
  }

  predicate IsCp(s: Segment) {
    s.DataSeg? && IsCheckpoint(s.hdr.kind)
  }

  // ---- The invariant ----

  ghost predicate UniqueExports(xs: seq<Export>, next: nat) {
    && (forall k :: 0 <= k < |xs| && xs[k].active ==> xs[k].session < next)
    && (forall j, k :: 0 <= j < k < |xs| && xs[j].active && xs[k].active ==> xs[j].session != xs[k].session)
  }

  ghost predicate UniqueImports(ms: seq<Import>) {
    forall j, k :: 0 <= j < k < |ms| && ms[j].active && ms[k].active
                   ==> ms[j].engine != ms[k].engine || ms[j].session != ms[k].session
  }

  /** Every checkpoint written so far has a serial below the next one of its session. */
  ghost predicate Spent(wire: seq<Segment>, e: Engine) {
    forall s :: s in wire && IsCp(s) ==>
      && s.hdr.session < e.nextSession
      && forall k :: 0 <= k < |e.exports| && e.exports[k].active && e.exports[k].session == s.hdr.session
                     ==> s.cpSerial < e.exports[k].nextCp
  }

  /** Checkpoint serials of a session strictly increase in the order written. */
  ghost predicate Increasing(wire: seq<Segment>) {
    forall i, j :: 0 <= i < j < |wire| && IsCp(wire[i]) && IsCp(wire[j]) && wire[i].hdr.session == wire[j].hdr.session
                   ==> wire[i].cpSerial < wire[j].cpSerial
  }

  ghost predicate Disciplined(h: History) {
    && UniqueExports(h.engine.exports, h.engine.nextSession) && UniqueImports(h.engine.imports)
    && Spent(h.wire, h.engine) && Increasing(h.wire)
  }

  // ---- How one step changes the export table ----

  /** Slot by slot: closed, or the same session with a serial counter that did not go back. */
  ghost predicate Evolves(xs: seq<Export>, ys: seq<Export>) {
    && |xs| == |ys|
    && forall k :: 0 <= k < |ys| && ys[k].active ==>
         xs[k].active && ys[k].session == xs[k].session && xs[k].nextCp <= ys[k].nextCp
  }

  /** The one checkpoint a step may write: the last segment, with a serial its session then moves past. */
  ghost predicate CpLast(sent: seq<Segment>, n: nat, serial: nat) {
    forall i :: 0 <= i < |sent| && IsCp(sent[i]) ==>
      i == |sent| - 1 && sent[i].hdr.session == n && sent[i].cpSerial == serial
  }

  ghost predicate MovesPast(xs: seq<Export>, ys: seq<Export>, n: nat, serial: nat) {
    && (exists k :: 0 <= k < |xs| && xs[k].active && xs[k].session == n && xs[k].nextCp == serial)
    && (forall k :: 0 <= k < |ys| && ys[k].active && ys[k].session == n ==> serial < ys[k].nextCp)
  }

  lemma EvolvesUnique(xs: seq<Export>, ys: seq<Export>, next: nat)
    requires UniqueExports(xs, next) && Evolves(xs, ys)
    ensures UniqueExports(ys, next)
  {
  }

  lemma SpentEvolves(wire: seq<Segment>, e: Engine, f: Engine)
    requires Spent(wire, e) && Evolves(e.exports, f.exports) && f.nextSession == e.nextSession
    ensures Spent(wire, f)
  {
    forall s, k | s in wire && IsCp(s) && 0 <= k < |f.exports| && f.exports[k].active
                  && f.exports[k].session == s.hdr.session
      ensures s.cpSerial < f.exports[k].nextCp
    {
      assert e.exports[k].active && e.exports[k].session == s.hdr.session;
    }
  }

  /** Appending what such a step wrote keeps the serials in order. */
  lemma StepKeeps(h: History, f: Effect, n: nat, serial: nat)
    requires Disciplined(h) && Evolves(h.engine.exports, f.engine.exports)
    requires f.engine.nextSession == h.engine.nextSession && UniqueImports(f.engine.imports)
    requires CpLast(f.sent, n, serial)
    requires (exists s :: s in f.sent && IsCp(s)) ==> MovesPast(h.engine.exports, f.engine.exports, n, serial)
    ensures Disciplined(History(f.engine, h.wire + f.sent))
  {
    EvolvesUnique(h.engine.exports, f.engine.exports, h.engine.nextSession);
    SpentEvolves(h.wire, h.engine, f.engine);
    if exists s :: s in f.sent && IsCp(s) {
      var k :| 0 <= k < |h.engine.exports| && h.engine.exports[k].active && h.engine.exports[k].session == n
               && h.engine.exports[k].nextCp == serial;
      assert forall s :: s in h.wire && IsCp(s) && s.hdr.session == n ==> s.cpSerial < serial;
      SpentAppend(h.wire, f.sent, f.engine, n, serial);
      IncreasingAppend(h.wire, f.sent, n, serial);
    } else {
      NoCpAppend(h.wire, f.sent, f.engine);
    }
  }

  lemma NoCpAppend(wire: seq<Segment>, sent: seq<Segment>, e: Engine)
    requires Spent(wire, e) && Increasing(wire) && forall s :: s in sent ==> !IsCp(s)
    ensures Spent(wire + sent, e) && Increasing(wire + sent)
  {
    var w := wire + sent;
    assert forall i :: 0 <= i < |w| && IsCp(w[i]) ==> i < |wire| && w[i] == wire[i] by {
      forall i | |wire| <= i < |w| ensures !IsCp(w[i]) {
        assert w[i] in sent;
      }
    }
  }

  lemma SpentAppend(wire: seq<Segment>, sent: seq<Segment>, e: Engine, n: nat, serial: nat)
    requires Spent(wire, e) && CpLast(sent, n, serial) && n < e.nextSession
    requires forall k :: 0 <= k < |e.exports| && e.exports[k].active && e.exports[k].session == n ==> serial < e.exports[k].nextCp
    ensures Spent(wire + sent, e)
  {
    forall s | s in sent && IsCp(s) ensures s.hdr.session == n && s.cpSerial == serial {
      var i :| 0 <= i < |sent| && sent[i] == s;
    }
  }

  lemma IncreasingAppend(wire: seq<Segment>, sent: seq<Segment>, n: nat, serial: nat)
    requires Increasing(wire) && CpLast(sent, n, serial)
    requires forall s :: s in wire && IsCp(s) && s.hdr.session == n ==> s.cpSerial < serial
    ensures Increasing(wire + sent)
  {
    var w := wire + sent;
    assert forall i :: |wire| <= i < |w| ==> w[i] == sent[i - |wire|];
    forall i, j | 0 <= i < j < |w| && IsCp(w[i]) && IsCp(w[j]) && w[i].hdr.session == w[j].hdr.session
      ensures w[i].cpSerial < w[j].cpSerial
    {
      if j < |wire| {
        assert w[i] == wire[i] && w[j] == wire[j];
      } else {
        assert w[j] == sent[j - |wire|];
        if i < |wire| {
          assert w[i] == wire[i] && wire[i] in wire;
        }
      }
    }
  }

  // ---- The checkpoint of a run of segments comes last ----

  lemma {:induction false} EmitAllCpLast(ss: seq<Segment>, n: nat, serial: nat)
    requires CpLast(ss, n, serial)
    ensures CpLast(EmitAll(ss), n, serial)
  {
    if |ss| > 1 {
      assert forall i :: 0 <= i < |ss[1..]| ==> ss[1..][i] == ss[i + 1];
      EmitAllCpLast(ss[1..], n, serial);
      assert !IsCp(ss[0]);
    } else if |ss| == 1 {
      assert EmitAll(ss[1..]) == [];
    }
  }

  lemma {:induction false} EmitUntilStuckCpLast(ss: seq<Segment>, n: nat, serial: nat)
    requires CpLast(ss, n, serial)
    ensures CpLast(EmitUntilStuck(ss), n, serial)
  {
    if |ss| > 1 {
      assert forall i :: 0 <= i < |ss[1..]| ==> ss[1..][i] == ss[i + 1];
      EmitUntilStuckCpLast(ss[1..], n, serial);
      assert !IsCp(ss[0]);
    } else if |ss| == 1 {
      assert EmitUntilStuck(ss[1..]) == [];
    }
  }

  lemma CpLastPrepend(a: seq<Segment>, b: seq<Segment>, n: nat, serial: nat)
    requires CpLast(b, n, serial) && forall s :: s in a ==> !IsCp(s)
    ensures CpLast(a + b, n, serial)
  {
    var c := a + b;
    assert forall i :: 0 <= i < |a| ==> c[i] == a[i] && a[i] in a;
    assert forall i :: |a| <= i < |c| ==> c[i] == b[i - |a|];
  }

  lemma SegmentsCpLast(x: Export, ps: seq<Claim>, lastKind: nat, serial: nat)
    ensures CpLast(Segments(x, ps, lastKind, serial), x.session, serial)
  {
  }

  // ---- Each input ----

  lemma UniqueAfterData(e: Engine, s: Segment, now: int)
    requires UniqueImports(e.imports) && s.DataSeg?
    ensures UniqueImports(HandleData(e, s, now).engine.imports)
  {
    var slot := ImportSlot(e, s.hdr);
    if slot < |e.imports| {
      var m := ImportAt(e, s.hdr);
      assert m.engine == s.hdr.engine && m.session == s.hdr.session;
      UniqueReplace(e, s.hdr, slot, m);
      if s.offset + |s.payload| <= MAX_BLOCK_SIZE {
        UniqueReplace(e, s.hdr, slot, Settle(Accept(m, s.hdr.kind, s.offset, s.payload), s.hdr.kind));
      }
    }
  }

  lemma UniqueReplace(e: Engine, h: Header, slot: nat, m: Import)
    requires UniqueImports(e.imports) && slot == ImportSlot(e, h) < |e.imports|
    requires m.engine == h.engine && m.session == h.session
    ensures UniqueImports(e.imports[slot := m])
  {
    var k := FindImport(e.imports, h.engine, h.session);
    var ms := e.imports[slot := m];
    forall j | 0 <= j < |ms| && j != slot && ms[j].active ensures ms[j].engine != h.engine || ms[j].session != h.session {
      if k < |e.imports| {
        assert ms[j] == e.imports[j] && e.imports[k].active;
      }
    }
  }

  lemma DataKeeps(h: History, s: Segment, now: int)
    requires Disciplined(h) && s.DataSeg?
    ensures var f := HandleData(h.engine, s, now); Disciplined(History(f.engine, h.wire + f.sent))
  {
    var f := HandleData(h.engine, s, now);
    UniqueAfterData(h.engine, s, now);
    assert f.engine.exports == h.engine.exports && f.engine.nextSession == h.engine.nextSession;
    StepKeeps(h, f, 0, 0);
  }

  lemma ReportKeeps(h: History, s: Segment, now: int)
    requires Disciplined(h) && s.ReportSeg?
    ensures var f := HandleReport(h.engine, s, now); Disciplined(History(f.engine, h.wire + f.sent))
  {
    var e := h.engine;
    var f := HandleReport(e, s, now);
    var k := FindOwnExport(e.exports, e.localId, s.hdr.session);
    if k == |e.exports| || Full(s.claims, e.exports[k].len) {
      StepKeeps(h, f, 0, 0);
    } else {
      var x := e.exports[k];
      var ps := Missing(x, e.config, s.claims, s.lower, s.upper);
      var ss := Segments(x, ps, RED_DATA_CP, x.nextCp);
      SegmentsCpLast(x, ps, RED_DATA_CP, x.nextCp);
      EmitAllCpLast(ss, x.session, x.nextCp);
      var ack := Emit(AckSeg(Header(0, REPORT_ACK, e.localId, s.hdr.session, 0, 0), s.rptSerial));
      CpLastPrepend(ack, EmitAll(ss), x.session, x.nextCp);
      ReportMoves(h, s, now, k, ps);
      StepKeeps(h, f, x.session, x.nextCp);
    }
  }

  lemma ReportMoves(h: History, s: Segment, now: int, k: nat, ps: seq<Claim>)
    requires Disciplined(h) && s.ReportSeg? && k == FindOwnExport(h.engine.exports, h.engine.localId, s.hdr.session)
    requires k < |h.engine.exports| && !Full(s.claims, h.engine.exports[k].len)
    requires ps == Missing(h.engine.exports[k], h.engine.config, s.claims, s.lower, s.upper)
    ensures var f := HandleReport(h.engine, s, now);
            && Evolves(h.engine.exports, f.engine.exports)
            && (ps != [] ==> MovesPast(h.engine.exports, f.engine.exports, h.engine.exports[k].session, h.engine.exports[k].nextCp))
            && (ps == [] ==> forall g :: g in f.sent ==> !IsCp(g))
  {
  }

  lemma SubmitKeeps(h: History, remote: nat, block: seq<byte>, now: int)
    requires Disciplined(h) && ConfigOk(h.engine.config)
    ensures var f := SendBlock(h.engine, remote, block, now); Disciplined(History(f.engine, h.wire + f.sent))
  {
    var e := h.engine;
    if CanSend(e, block) {
      var f := SendBlock(e, remote, block, now);
      var x := OpenedExport(e, remote, block);
      var ss := BlockSegments(e, remote, block);
      SegmentsCpLast(x, Pieces(0, |block|, e.config.mtu), RED_DATA_EORP_CP, 1);
      EmitUntilStuckCpLast(ss, e.nextSession, 1);
      assert f.engine.exports == e.exports[FreeExport(e.exports) := x] && f.engine.imports == e.imports;
      OpenKeeps(h, f, FreeExport(e.exports), x);
    } else {
      assert h.wire + [] == h.wire;
    }
  }

  lemma OpenKeeps(h: History, f: Effect, k: nat, x: Export)
    requires Disciplined(h) && k < |h.engine.exports| && !h.engine.exports[k].active
    requires x.session == h.engine.nextSession && x.nextCp == 2
    requires f.engine.exports == h.engine.exports[k := x] && f.engine.imports == h.engine.imports
    requires f.engine.nextSession == h.engine.nextSession + 1 && CpLast(f.sent, x.session, 1)
    ensures Disciplined(History(f.engine, h.wire + f.sent))
  {
    assert Spent(h.wire, f.engine);
    SpentAppend(h.wire, f.sent, f.engine, x.session, 1);
    IncreasingAppend(h.wire, f.sent, x.session, 1);
  }

  lemma CancelKeeps(h: History, hdr: Header)
    requires Disciplined(h)
    ensures var f := HandleCancel(h.engine, hdr); Disciplined(History(f.engine, h.wire + f.sent))
  {
    var e := h.engine;
    CloseKeeps(e, hdr);
    StepKeeps(h, HandleCancel(e, hdr), 0, 0);
  }

  lemma CloseKeeps(e: Engine, h: Header)
    requires UniqueImports(e.imports)
    ensures var f := HandleCancel(e, h);
            && Evolves(e.exports, f.engine.exports) && UniqueImports(f.engine.imports)
            && f.engine.nextSession == e.nextSession && forall s :: s in f.sent ==> !IsCp(s)
  {
    CloseExportKeeps(e, h.session);
    CloseImportKeeps(e, h.engine, h.session);
  }

  lemma CloseExportKeeps(e: Engine, session: nat)
    ensures var f := CloseExport(e, session);
            Evolves(e.exports, f.exports) && f.imports == e.imports && f.nextSession == e.nextSession
  {
  }

  lemma CloseImportKeeps(e: Engine, engine: nat, session: nat)
    requires UniqueImports(e.imports)
    ensures var f := CloseImport(e, engine, session);
            UniqueImports(f.imports) && f.exports == e.exports && f.nextSession == e.nextSession
  {
  }

  lemma OctetsKeep(h: History, buf: seq<byte>, now: int)
    requires Disciplined(h)
    ensures var f := Process(h.engine, buf, now); Disciplined(History(f.engine, h.wire + f.sent))
  {
    assert h.wire + [] == h.wire;
    if DecodeHeader(buf).Some? {
      var d := DecodeHeader(buf).value;
      BodyKeeps(h, d.hdr, d.body, now);
    }
  }

  lemma BodyKeeps(h: History, hdr: Header, body: seq<byte>, now: int)
    requires Disciplined(h)
    ensures var f := ProcessBody(h.engine, hdr, body, now); Disciplined(History(f.engine, h.wire + f.sent))
  {
    assert h.wire + [] == h.wire;
    if hdr.kind <= RED_DATA_EORP_CP {
      if DecodeData(hdr, body).Some? { DataKeeps(h, DecodeData(hdr, body).value, now); }
    } else if hdr.kind == REPORT {
      if DecodeReport(hdr, body).Some? { ReportKeeps(h, DecodeReport(hdr, body).value, now); }
    } else if hdr.kind >= CANCEL_BY_SENDER {
      CancelKeeps(h, hdr);
    }
  }

  // ---- Timers ----

  lemma FireSlotKeeps(h: History, i: nat, now: int)
    requires Disciplined(h) && i < |h.engine.timers|
    ensures var f := FireSlot(h.engine, i, now);
            Disciplined(History(f.engine, h.wire + f.sent)) && |f.engine.timers| == |h.engine.timers|
  {
    var e := h.engine;
    var t := e.timers[i];
    var f := FireSlot(e, i, now);
    if Expired(t, now) && t.retries + 1 < AsInt32(e.config.maxRetries) {
      ResendKeeps(h, t);
      var r := Resend(e, t);
      assert f.engine.exports == r.engine.exports && f.engine.imports == r.engine.imports && f.sent == r.sent;
    } else {
      GiveUpKeeps(e, t);
      StepKeeps(h, f, 0, 0);
    }
  }

  lemma GiveUpKeeps(e: Engine, t: Timer)
    requires UniqueImports(e.imports)
    ensures var g := GiveUp(e, t);
            Evolves(e.exports, g.exports) && UniqueImports(g.imports) && g.nextSession == e.nextSession
            && g.timers == e.timers
  {
    CloseExportKeeps(e, t.session);
  }

  lemma ResendKeeps(h: History, t: Timer)
    requires Disciplined(h)
    ensures var r := Resend(h.engine, t); Disciplined(History(r.engine, h.wire + r.sent))
    ensures Resend(h.engine, t).engine.nextSession == h.engine.nextSession
  {
    hide Slice, Wire, Fits, TailRange, Increasing, Spent;
    var e := h.engine;
    var r := Resend(e, t);
    if t.kind == CHECKPOINT_TIMER && FindExport(e.exports, t.session) < |e.exports| {
      var k := FindExport(e.exports, t.session);
      var x := e.exports[k];
      assert r.engine.exports[k].nextCp == x.nextCp + 1;
      assert e.exports[k].active && e.exports[k].session == x.session && e.exports[k].nextCp == x.nextCp;
      StepKeeps(h, r, x.session, x.nextCp);
    } else {
      StepKeeps(h, r, 0, 0);
    }
  }

  lemma {:induction false} FireKeeps(h: History, i: nat, now: int)
    requires Disciplined(h)
    ensures var f := FireFrom(h.engine, i, now); Disciplined(History(f.engine, h.wire + f.sent))
    decreases |h.engine.timers| - i
  {
    if i < |h.engine.timers| {
      var f := FireSlot(h.engine, i, now);
      FireSlotKeeps(h, i, now);
      FireKeeps(History(f.engine, h.wire + f.sent), i + 1, now);
      Assoc(h.wire, f.sent, FireFrom(f.engine, i + 1, now).sent);
    } else {
      assert h.wire + [] == h.wire;
    }
  }

  // ---- Every run ----

  ghost function Live(h: History, inputs: seq<(Input, int)>): (r: History)
    requires ConfigOk(h.engine.config)
    ensures r.engine.config == h.engine.config
    decreases |inputs|
  {
    if inputs == [] then h
    else
      var p := Live(h, inputs[..|inputs| - 1]);
      var last := inputs[|inputs| - 1];
      var f := Respond(p.engine, last.0, last.1);
      RespondKeepsConfig(p.engine, last.0, last.1);
      History(f.engine, p.wire + f.sent)
  }

  lemma RespondKeepsConfig(e: Engine, input: Input, now: int)
    requires ConfigOk(e.config)
    ensures Respond(e, input, now).engine.config == e.config
  {
    match input
    case Submit(remote, block) =>
    case Octets(buf) => ProcessKeepsConfig(e, buf, now);
    case Abort(n) =>
    case Tick => FireKeepsConfig(e, 0, now);
  }

  lemma RespondKeeps(h: History, input: Input, now: int)
    requires Disciplined(h) && ConfigOk(h.engine.config)
    ensures var f := Respond(h.engine, input, now); Disciplined(History(f.engine, h.wire + f.sent))
  {
    match input
    case Submit(remote, block) => SubmitKeeps(h, remote, block, now);
    case Octets(buf) => OctetsKeep(h, buf, now);
    case Abort(n) => AbortKeeps(h, n, now);
    case Tick => FireKeeps(h, 0, now);
  }

  lemma AbortKeeps(h: History, session: nat, now: int)
    requires Disciplined(h)
    ensures var f := CancelSession(h.engine, session, now); Disciplined(History(f.engine, h.wire + f.sent))
  {
    StepKeeps(h, CancelSession(h.engine, session, now), 0, 0);
  }

  lemma StartsDisciplined(config: Config, id: nat)
    ensures Disciplined(History(InitialEngine(config, id), []))
  {
  }

  lemma {:induction false} LiveDisciplined(h: History, inputs: seq<(Input, int)>)
    requires ConfigOk(h.engine.config) && Disciplined(h)
    ensures Disciplined(Live(h, inputs))
    decreases |inputs|
  {
    if inputs != [] {
      var last := inputs[|inputs| - 1];
      LiveDisciplined(h, inputs[..|inputs| - 1]);
      RespondKeeps(Live(h, inputs[..|inputs| - 1]), last.0, last.1);
    }
  }

  /**
   * Over every run, on any input at all, of an engine from its initial state: open sessions have distinct
   * numbers, each (engine, session) has at most one import slot, and the checkpoint serials written for a
   * session, by first transmission, retransmission of gaps and timer alike, strictly increase.
   */
  lemma AlwaysDisciplined(config: Config, id: nat, inputs: seq<(Input, int)>)
    requires ConfigOk(config)
    ensures Disciplined(Live(History(InitialEngine(config, id), []), inputs))
  {
    hide Disciplined, Live;
    StartsDisciplined(config, id);
    LiveDisciplined(History(InitialEngine(config, id), []), inputs);
  }

  // ---- Report serials ----

  /** Import slots keep their session, and its report serial never goes back, while they stay open. */
  ghost predicate SerialsRise(ms: seq<Import>, ns: seq<Import>) {
    && |ms| == |ns|
    && forall k :: 0 <= k < |ms| && ms[k].active && ns[k].active ==>
         ns[k].engine == ms[k].engine && ns[k].session == ms[k].session && ms[k].nextRpt <= ns[k].nextRpt
  }

  ghost predicate OnlyCloses(ms: seq<Import>, ns: seq<Import>) {
    |ms| == |ns| && forall k :: 0 <= k < |ms| && ns[k].active ==> ns[k] == ms[k]
  }

  lemma {:induction false} FireOnlyCloses(e: Engine, i: nat, now: int)
    ensures OnlyCloses(e.imports, FireFrom(e, i, now).engine.imports)
    decreases |e.timers| - i
  {
    if i < |e.timers| {
      var f := FireSlot(e, i, now).engine;
      SlotOnlyCloses(e, i, now);
      FireSlotKeepsConfig(e, i, now);
      FireOnlyCloses(f, i + 1, now);
    }
  }

  lemma SlotOnlyCloses(e: Engine, i: nat, now: int)
    requires i < |e.timers|
    ensures OnlyCloses(e.imports, FireSlot(e, i, now).engine.imports)
  {
  }

  lemma BodyRises(e: Engine, h: Header, body: seq<byte>, now: int)
    ensures SerialsRise(e.imports, ProcessBody(e, h, body, now).engine.imports)
  {
    if h.kind <= RED_DATA_EORP_CP && DecodeData(h, body).Some? {
      DataRises(e, DecodeData(h, body).value, now);
    } else if CANCEL_BY_SENDER <= h.kind <= CANCEL_ACK_RECVR {
      CancelRises(e, h);
    }
  }

  lemma CancelRises(e: Engine, h: Header)
    ensures SerialsRise(e.imports, HandleCancel(e, h).engine.imports)
  {
  }

  /**
   * A report answering a checkpoint carries the session's next serial, and the session, while it stays open,
   * has moved past it. A report timer repeats the serial it was started with.
   */
  lemma DataRises(e: Engine, s: Segment, now: int)
    requires s.DataSeg?
    ensures var f := HandleData(e, s, now);
            && SerialsRise(e.imports, f.engine.imports)
            && forall r :: r in f.sent ==>
                 r.ReportSeg? && r.rptSerial == ImportAt(e, s.hdr).nextRpt
                 && ImportSlot(e, s.hdr) < |f.engine.imports|
                 && f.engine.imports[ImportSlot(e, s.hdr)].nextRpt == r.rptSerial + 1
  {
    hide AddClaim, Full, Fits, ArmReport;
  }

  /** Over any single input, from any state, no open session's report serial goes back. */
  lemma ReportSerialsRise(e: Engine, input: Input, now: int)
    requires ConfigOk(e.config)
    ensures SerialsRise(e.imports, Respond(e, input, now).engine.imports)
  {
    match input
    case Submit(remote, block) =>
    case Octets(buf) =>
      match DecodeHeader(buf) {
        case None =>
        case Some(g) => BodyRises(e, g.hdr, g.body, now);
      }
    case Abort(n) =>
    case Tick => FireOnlyCloses(e, 0, now);
  }
}
