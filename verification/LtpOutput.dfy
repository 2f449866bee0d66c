/** What an engine writes, whatever it is fed: every segment in the engine's own name, every report about what it holds. */
module LtpOutput {
  import opened Bytes
  import opened ClaimMap
  import opened LtpSegment
  import opened LtpState
  import opened LtpSegmentation
  import opened LtpSteps
  import opened LtpDiscipline

  /** Written by the engine of this identifier: version 0, no extensions, client service 1, no reason code, and it fits the buffer. */
  ghost predicate Signed(s: Segment, id: nat) {
    && s.hdr.engine == id && s.hdr.version == 0 && s.hdr.hdrExt == 0 && s.hdr.trailerExt == 0
    && WellFormed(s) && Fits(s, SEGMENT_BUF)
    && (s.DataSeg? ==> s.service == 1 && s.rptSerial == 0)
    && (s.CancelSeg? ==> s.reason == 0)
  }

  ghost predicate AllSigned(ss: seq<Segment>, id: nat) {
    forall s :: s in ss ==> Signed(s, id)
  }

  /** The sessions an engine opens are its own. */
  ghost predicate OwnExports(e: Engine) {
    forall k :: 0 <= k < |e.exports| && e.exports[k].active ==> e.exports[k].engine == e.localId
  }

  lemma AllSignedAppend(a: seq<Segment>, b: seq<Segment>, id: nat)
    requires AllSigned(a, id) && AllSigned(b, id)
    ensures AllSigned(a + b, id)
  {
  }

  lemma {:induction false} StuckFits(ss: seq<Segment>)
    ensures forall s :: s in EmitUntilStuck(ss) ==> s in ss && Fits(s, SEGMENT_BUF)
  {
    hide Fits;
    if ss != [] {
      StuckFits(ss[1..]);
    }
  }

  lemma {:induction false} EmittedFit(ss: seq<Segment>)
    ensures forall s :: s in EmitAll(ss) ==> s in ss && Fits(s, SEGMENT_BUF)
  {
    hide Fits;
    if ss != [] {
      EmittedFit(ss[1..]);
    }
  }

  /** What a session's block is cut into. */
  lemma SegmentsSigned(x: Export, ps: seq<Claim>, kind: nat, serial: nat, s: Segment)
    requires s in Segments(x, ps, kind, serial) && IsCheckpoint(kind) && Fits(s, SEGMENT_BUF)
    ensures Signed(s, x.engine)
  {
    hide Segments, Fits;
    var i :| 0 <= i < |Segments(x, ps, kind, serial)| && s == Segments(x, ps, kind, serial)[i];
  }

  lemma SubmitSigned(e: Engine, remote: nat, block: seq<byte>, now: int)
    requires ConfigOk(e.config) && OwnExports(e)
    ensures var f := SendBlock(e, remote, block, now); OwnExports(f.engine) && AllSigned(f.sent, e.localId)
  {
    hide Fits, Segments, Pieces, ArmCheckpoint;
    if CanSend(e, block) {
      var ss := BlockSegments(e, remote, block);
      StuckFits(ss);
      forall s | s in EmitUntilStuck(ss) ensures Signed(s, e.localId) {
        SegmentsSigned(OpenedExport(e, remote, block), Pieces(0, |block|, e.config.mtu), RED_DATA_EORP_CP, 1, s);
      }
    }
  }

  lemma ReportSigned(e: Engine, s: Segment, now: int)
    requires s.ReportSeg? && OwnExports(e)
    ensures var f := HandleReport(e, s, now); OwnExports(f.engine) && AllSigned(f.sent, e.localId)
  {
    hide Fits, Segments, Missing, ArmResent, CancelTimer, Full;
    var k := FindOwnExport(e.exports, e.localId, s.hdr.session);
    if k < |e.exports| && !Full(s.claims, e.exports[k].len) {
      var x := e.exports[k];
      var ps := Missing(x, e.config, s.claims, s.lower, s.upper);
      EmittedFit(Segments(x, ps, RED_DATA_CP, x.nextCp));
      forall t | t in EmitAll(Segments(x, ps, RED_DATA_CP, x.nextCp)) ensures Signed(t, e.localId) {
        SegmentsSigned(x, ps, RED_DATA_CP, x.nextCp, t);
      }
    }
  }

  lemma DataSigned(e: Engine, s: Segment, now: int)
    requires s.DataSeg? && OwnExports(e)
    ensures var f := HandleData(e, s, now); OwnExports(f.engine) && AllSigned(f.sent, e.localId)
  {
    hide Fits, Accept, ArmReport, Settle, ImportAt, ImportSlot;
  }

  lemma CancelSigned(e: Engine, h: Header)
    requires OwnExports(e)
    ensures var f := HandleCancel(e, h); OwnExports(f.engine) && AllSigned(f.sent, e.localId)
  {
    hide Fits, CancelTimer, FindImport;
  }

  lemma OctetsSigned(e: Engine, buf: seq<byte>, now: int)
    requires OwnExports(e)
    ensures var f := Process(e, buf, now); OwnExports(f.engine) && AllSigned(f.sent, e.localId)
  {
    hide ProcessBody, AllSigned, OwnExports;
    assert OwnExports(Nothing(e).engine) && AllSigned(Nothing(e).sent, e.localId) by { NothingSigned(e); }
    if DecodeHeader(buf).Some? {
      var d := DecodeHeader(buf).value;
      BodySigned(e, d.hdr, d.body, now);
    }
  }

  lemma NothingSigned(e: Engine)
    ensures AllSigned(Nothing(e).sent, e.localId)
  {
  }

  lemma BodySigned(e: Engine, h: Header, body: seq<byte>, now: int)
    requires OwnExports(e)
    ensures var f := ProcessBody(e, h, body, now); OwnExports(f.engine) && AllSigned(f.sent, e.localId)
  {
    hide HandleData, HandleReport, HandleCancel;
    if h.kind <= RED_DATA_EORP_CP {
      if DecodeData(h, body).Some? { DataSigned(e, DecodeData(h, body).value, now); }
    } else if h.kind == REPORT {
      if DecodeReport(h, body).Some? { ReportSigned(e, DecodeReport(h, body).value, now); }
    } else if h.kind >= CANCEL_BY_SENDER {
      CancelSigned(e, h);
    }
  }

  lemma AbortSigned(e: Engine, session: nat, now: int)
    requires OwnExports(e)
    ensures var f := CancelSession(e, session, now); OwnExports(f.engine) && AllSigned(f.sent, e.localId)
  {
    hide Fits, StartTimer, FindExport;
  }

  lemma FireSlotSigned(e: Engine, i: nat, now: int)
    requires OwnExports(e) && i < |e.timers|
    ensures var f := FireSlot(e, i, now);
            && OwnExports(f.engine) && f.engine.localId == e.localId && |f.engine.timers| == |e.timers|
            && AllSigned(f.sent, e.localId)
  {
    hide Resend, GiveUp;
    ResendSigned(e, e.timers[i]);
    GiveUpOwns(e, e.timers[i]);
  }

  lemma GiveUpOwns(e: Engine, t: Timer)
    requires OwnExports(e)
    ensures var f := GiveUp(e, t); OwnExports(f) && f.localId == e.localId && |f.timers| == |e.timers|
  {
  }

  lemma ResendSigned(e: Engine, t: Timer)
    requires OwnExports(e)
    ensures var f := Resend(e, t);
            && OwnExports(f.engine) && f.engine.localId == e.localId && |f.engine.timers| == |e.timers|
            && AllSigned(f.sent, e.localId)
  {
    hide Fits, TailRange, Slice;
  }

  lemma {:induction false} TickSigned(e: Engine, i: nat, now: int)
    requires OwnExports(e)
    ensures var f := FireFrom(e, i, now); OwnExports(f.engine) && AllSigned(f.sent, e.localId)
    decreases |e.timers| - i
  {
    hide FireSlot, AllSigned;
    if i < |e.timers| {
      var f := FireSlot(e, i, now);
      FireSlotSigned(e, i, now);
      TickSigned(f.engine, i + 1, now);
      AllSignedAppend(f.sent, FireFrom(f.engine, i + 1, now).sent, e.localId);
    } else {
      NothingSigned(e);
    }
  }

  lemma RespondSigned(e: Engine, input: Input, now: int)
    requires OwnExports(e) && ConfigOk(e.config)
    ensures var f := Respond(e, input, now);
            OwnExports(f.engine) && f.engine.localId == e.localId && AllSigned(f.sent, e.localId)
  {
    hide SendBlock, Process, CancelSession, FireFrom;
    RespondKeepsId(e, input, now);
    match input
    case Submit(remote, block) => SubmitSigned(e, remote, block, now);
    case Octets(buf) => OctetsSigned(e, buf, now);
    case Abort(n) => AbortSigned(e, n, now);
    case Tick => TickSigned(e, 0, now);
  }

  lemma RespondKeepsId(e: Engine, input: Input, now: int)
    requires ConfigOk(e.config)
    ensures Respond(e, input, now).engine.localId == e.localId
  {
    match input
    case Submit(remote, block) =>
    case Octets(buf) => ProcessKeepsConfig(e, buf, now);
    case Abort(n) =>
    case Tick => FireKeepsConfig(e, 0, now);
  }

  /**
   * Over every run from the initial state, on any input at all, each segment written names the engine itself, is
   * well-formed, of version 0 and without extensions, and fits the buffer; so the peer can tell whose session it is.
   */
  lemma {:induction false} AlwaysSigned(config: Config, id: nat, inputs: seq<(Input, int)>)
    requires ConfigOk(config)
    ensures var h := Live(History(InitialEngine(config, id), []), inputs);
            OwnExports(h.engine) && h.engine.localId == id && AllSigned(h.wire, id)
    decreases |inputs|
  {
    hide Respond, AllSigned, OwnExports, InitialEngine;
    if inputs == [] {
      StartsSigned(config, id);
    } else {
      var last := inputs[|inputs| - 1];
      AlwaysSigned(config, id, inputs[..|inputs| - 1]);
      StartsSigned(config, id);
      var p := Live(History(InitialEngine(config, id), []), inputs[..|inputs| - 1]);
      RespondSigned(p.engine, last.0, last.1);
      AllSignedAppend(p.wire, Respond(p.engine, last.0, last.1).sent, id);
    }
  }

  lemma StartsSigned(config: Config, id: nat)
    ensures var e := InitialEngine(config, id);
            e.config == config && e.localId == id && OwnExports(e) && AllSigned([], id)
  {
  }

  // ---- Reports ----

  /**
   * What a checkpoint is answered with, if anything: the next serial of its session, 1 for one it opens; its own
   * serial; the claims the session then has; and as the upper bound the end of the block once a segment has
   * marked it, and the end of the checkpoint itself before that.
   */
  lemma AnswerSays(e: Engine, s: Segment, now: int, r: Segment)
    requires s.DataSeg? && r in HandleData(e, s, now).sent
    ensures var k, known := ImportSlot(e, s.hdr), FindImport(e.imports, s.hdr.engine, s.hdr.session);
            var end := s.offset + |s.payload|;
            && IsCheckpoint(s.hdr.kind) && k < |e.imports| == |HandleData(e, s, now).engine.imports|
            && r == ReportSeg(Header(0, REPORT, e.localId, s.hdr.session, 0, 0),
                              if known < |e.imports| then e.imports[known].nextRpt else 1, s.cpSerial,
                              if s.hdr.kind != RED_DATA_EORP_CP && known < |e.imports| && e.imports[known].len > 0
                              then e.imports[known].len else end,
                              0, HandleData(e, s, now).engine.imports[k].claims)
  {
    hide AddClaim, Full, Fits;
  }

  /** What a report timer repeats: its own serial, no checkpoint's, and the session's claims as they are now. */
  lemma RepeatSays(e: Engine, t: Timer, r: Segment)
    requires t.kind == REPORT_TIMER && r in Resend(e, t).sent
    ensures exists k :: 0 <= k < |e.imports| && e.imports[k].active && e.imports[k].session == t.session &&
              r == ReportSeg(Header(0, REPORT, e.localId, t.session, 0, 0), t.serial, 0, e.imports[k].len, 0, e.imports[k].claims)
  {
    hide Fits;
  }

  /**
   * What a checkpoint timer sends again: the last MTU's worth of the block, all of a shorter one, as the checkpoint
   * that ends it, under the session's next serial.
   */
  lemma TailSays(e: Engine, t: Timer, r: Segment)
    requires t.kind == CHECKPOINT_TIMER && r in Resend(e, t).sent
    ensures exists k :: 0 <= k < |e.exports| && e.exports[k].active && e.exports[k].session == t.session &&
              var x := e.exports[k];
              && r.DataSeg? && r.hdr == Header(0, RED_DATA_EORP_CP, x.engine, x.session, 0, 0)
              && r.cpSerial == x.nextCp && Resend(e, t).engine.exports[k].nextCp == x.nextCp + 1
              && r.payload == x.Block()[|x.Block()| - |r.payload|..] && r.offset + |r.payload| == |x.Block()|
              && var mtu := if x.mtu == 0 then e.config.mtu else x.mtu;
                 |r.payload| == if |x.Block()| > mtu then mtu else |x.Block()|
  {
    hide Fits;
    var k := FindExport(e.exports, t.session);
    var x := e.exports[k];
    var c := TailRange(x, e.config);
    assert r == DataSegment(x, RED_DATA_EORP_CP, c, x.nextCp);
    assert x.data[c.offset..x.len] == x.data[..x.len][c.offset..];
  }
}
