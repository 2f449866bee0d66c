/** Numbers over whole runs: session numbers are never used twice, and the reports of a session are numbered upwards. */
module LtpSerials {
  import opened Bytes
  import opened ClaimMap
  import opened LtpSegment
  import opened LtpState
  import opened LtpSegmentation
  import opened LtpSteps
  import opened LtpDiscipline

  /** The engine after the first p inputs of a run from its initial state. */
  ghost function At(config: Config, id: nat, inputs: seq<(Input, int)>, p: nat): (e: Engine)
    requires ConfigOk(config) && p <= |inputs|
    ensures e.config == config
  {
    Live(History(InitialEngine(config, id), []), inputs[..p]).engine
  }

  lemma AtNext(config: Config, id: nat, inputs: seq<(Input, int)>, p: nat)
    requires ConfigOk(config) && p < |inputs|
    ensures At(config, id, inputs, p + 1) == Respond(At(config, id, inputs, p), inputs[p].0, inputs[p].1).engine
  {
    hide Respond;
    assert inputs[..p + 1][..p] == inputs[..p];
  }

  // ---- Session numbers ----

  /** No slot is opened: what is active was so before, for the same session. */
  ghost predicate NoneOpened(e: Engine, f: Engine) {
    && f.nextSession == e.nextSession && |f.exports| == |e.exports|
    && forall k :: 0 <= k < |f.exports| && f.exports[k].active ==>
         e.exports[k].active && f.exports[k].session == e.exports[k].session
  }

  lemma OctetsOpenNone(e: Engine, buf: seq<byte>, now: int)
    ensures NoneOpened(e, Process(e, buf, now).engine)
  {
    if DecodeHeader(buf).Some? {
      var d := DecodeHeader(buf).value;
      BodyOpensNone(e, d.hdr, d.body, now);
    }
  }

  lemma BodyOpensNone(e: Engine, h: Header, body: seq<byte>, now: int)
    ensures NoneOpened(e, ProcessBody(e, h, body, now).engine)
  {
    hide HandleData, HandleReport, HandleCancel;
    if h.kind <= RED_DATA_EORP_CP && DecodeData(h, body).Some? {
      DataOpensNone(e, DecodeData(h, body).value, now);
    } else if h.kind == REPORT && DecodeReport(h, body).Some? {
      ReportOpensNone(e, DecodeReport(h, body).value, now);
    } else if CANCEL_BY_SENDER <= h.kind <= CANCEL_ACK_RECVR {
      CancelOpensNone(e, h);
    }
  }

  lemma DataOpensNone(e: Engine, s: Segment, now: int)
    requires s.DataSeg?
    ensures NoneOpened(e, HandleData(e, s, now).engine)
  {
    hide Accept, ReportFor, DeliveryOf;
  }

  lemma ReportOpensNone(e: Engine, s: Segment, now: int)
    requires s.ReportSeg?
    ensures NoneOpened(e, HandleReport(e, s, now).engine)
  {
    hide Missing, Full, EmitAll, Segments;
  }

  lemma CancelOpensNone(e: Engine, h: Header)
    ensures NoneOpened(e, HandleCancel(e, h).engine)
  {
    hide Fits;
  }

  lemma SlotOpensNone(e: Engine, i: nat, now: int)
    requires i < |e.timers|
    ensures NoneOpened(e, FireSlot(e, i, now).engine)
  {
    hide Fits;
  }

  lemma {:induction false} FireOpensNone(e: Engine, i: nat, now: int)
    ensures NoneOpened(e, FireFrom(e, i, now).engine)
    decreases |e.timers| - i
  {
    if i < |e.timers| {
      hide FireSlot;
      SlotOpensNone(e, i, now);
      FireSlotKeepsConfig(e, i, now);
      FireOpensNone(FireSlot(e, i, now).engine, i + 1, now);
    }
  }

  /** The step opens an export session of this number. */
  ghost predicate Opens(e: Engine, f: Engine, n: nat) {
    && |e.exports| == |f.exports|
    && exists k :: 0 <= k < |f.exports| && f.exports[k].active && !e.exports[k].active && f.exports[k].session == n
  }

  /** Only sending a block opens a session; it takes the next number, and the counter moves past it. */
  lemma OpensNext(e: Engine, input: Input, now: int)
    requires ConfigOk(e.config)
    ensures var f := Respond(e, input, now).engine;
            && e.nextSession <= f.nextSession
            && forall n: nat :: Opens(e, f, n) ==> n == e.nextSession && f.nextSession == n + 1
  {
    hide Process, FireFrom, EmitUntilStuck, BlockSegments;
    match input
    case Submit(remote, block) =>
    case Octets(buf) => OctetsOpenNone(e, buf, now);
    case Abort(n) =>
    case Tick => FireOpensNone(e, 0, now);
  }

  /** The session counter never goes back in a run. */
  lemma {:induction false} CounterRises(config: Config, id: nat, inputs: seq<(Input, int)>, i: nat, j: nat)
    requires ConfigOk(config) && i <= j <= |inputs|
    ensures At(config, id, inputs, i).nextSession <= At(config, id, inputs, j).nextSession
    decreases j
  {
    hide *;
    if i < j {
      CounterRises(config, id, inputs, i, j - 1);
      AtNext(config, id, inputs, j - 1);
      OpensNext(At(config, id, inputs, j - 1), inputs[j - 1].0, inputs[j - 1].1);
    }
  }

  /**
   * Session numbers are never reused: of any two sessions an engine opens in a run, on any input, the later
   * one has the larger number.
   */
  lemma SessionsNeverReused(config: Config, id: nat, inputs: seq<(Input, int)>, i: nat, j: nat, n: nat, m: nat)
    requires ConfigOk(config) && i < j < |inputs|
    requires Opens(At(config, id, inputs, i), At(config, id, inputs, i + 1), n)
    requires Opens(At(config, id, inputs, j), At(config, id, inputs, j + 1), m)
    ensures n < m
  {
    hide *;
    AtNext(config, id, inputs, i);
    AtNext(config, id, inputs, j);
    OpensNext(At(config, id, inputs, i), inputs[i].0, inputs[i].1);
    OpensNext(At(config, id, inputs, j), inputs[j].0, inputs[j].1);
    CounterRises(config, id, inputs, i + 1, j);
  }

  // ---- Report serials ----

  /** The data segment these octets are, if they are one. */
  function DataOf(buf: seq<byte>): Option<Segment> {
    match DecodeHeader(buf)
    case None => None
    case Some(f) => if f.hdr.kind <= RED_DATA_EORP_CP then DecodeData(f.hdr, f.body) else None
  }

  /** The input is a checkpoint for import slot k, and r is a report written in answer to it. */
  ghost predicate Answers(e: Engine, input: Input, now: int, k: nat, r: Segment)
    requires ConfigOk(e.config)
  {
    && input.Octets? && DataOf(input.buf).Some?
    && k == ImportSlot(e, DataOf(input.buf).value.hdr)
    && r in Respond(e, input, now).sent
  }

  /** Slot k is in use. */
  ghost predicate InUse(e: Engine, k: nat) {
    k < |e.imports| && e.imports[k].active
  }

  /**
   * The answer takes the slot's serial, and a slot that stays in use has moved past it. A session opened by the
   * checkpoint starts again from 1, also when it was open before: serials rise while a slot is in use, not longer.
   */
  lemma AnswerTakesNext(e: Engine, input: Input, now: int, k: nat, r: Segment)
    requires ConfigOk(e.config) && Answers(e, input, now, k, r)
    ensures r.ReportSeg?
    ensures InUse(e, k) ==> r.rptSerial == e.imports[k].nextRpt && r.hdr.session == e.imports[k].session
    ensures !InUse(e, k) ==> r.rptSerial == 1
    ensures var f := Respond(e, input, now).engine;
            InUse(f, k) ==> f.imports[k].nextRpt == r.rptSerial + 1 && f.imports[k].session == r.hdr.session
  {
    var s := DataOf(input.buf).value;
    assert Respond(e, input, now) == HandleData(e, s, now);
    DataAnswer(e, s, now, r);
  }

  lemma DataAnswer(e: Engine, s: Segment, now: int, r: Segment)
    requires s.DataSeg? && r in HandleData(e, s, now).sent
    ensures var k, m := ImportSlot(e, s.hdr), ImportAt(e, s.hdr);
            var f := HandleData(e, s, now).engine;
            && r.ReportSeg? && r.rptSerial == m.nextRpt && r.hdr.session == s.hdr.session == m.session
            && k < |f.imports| == |e.imports|
            && f.imports[k].nextRpt == r.rptSerial + 1 && f.imports[k].session == r.hdr.session
            && (if e.imports[k].active then m == e.imports[k] else m.nextRpt == 1)
  {
    hide AddClaim, Full, Fits;
  }

  /** Slot k is in use for the same session before and after, and the session's report serial has not gone back. */
  ghost predicate Rose(e: Engine, f: Engine, k: nat) {
    && InUse(e, k) && InUse(f, k)
    && f.imports[k].engine == e.imports[k].engine && f.imports[k].session == e.imports[k].session
    && e.imports[k].nextRpt <= f.imports[k].nextRpt
  }

  lemma RoseSame(e: Engine, k: nat)
    requires InUse(e, k)
    ensures Rose(e, e, k)
  {
  }

  lemma RoseTransitive(e: Engine, f: Engine, g: Engine, k: nat)
    requires Rose(e, f, k) && Rose(f, g, k)
    ensures Rose(e, g, k)
  {
  }

  lemma StepRises(e: Engine, input: Input, now: int, k: nat)
    requires ConfigOk(e.config) && InUse(e, k) && InUse(Respond(e, input, now).engine, k)
    ensures Rose(e, Respond(e, input, now).engine, k)
  {
    hide Respond;
    ReportSerialsRise(e, input, now);
  }

  /** While a slot stays in use it stays with its session, and the session's report serial never goes back. */
  lemma {:induction false} SlotRises(config: Config, id: nat, inputs: seq<(Input, int)>, k: nat, lo: nat, hi: nat)
    requires ConfigOk(config) && lo <= hi <= |inputs|
    requires forall p :: lo <= p <= hi ==> InUse(At(config, id, inputs, p), k)
    ensures Rose(At(config, id, inputs, lo), At(config, id, inputs, hi), k)
    decreases hi
  {
    hide *;
    var f := At(config, id, inputs, hi);
    assert InUse(f, k);
    if lo == hi {
      RoseSame(f, k);
    } else {
      var e := At(config, id, inputs, hi - 1);
      assert InUse(e, k);
      SlotRises(config, id, inputs, k, lo, hi - 1);
      AtNext(config, id, inputs, hi - 1);
      StepRises(e, inputs[hi - 1].0, inputs[hi - 1].1, k);
      RoseTransitive(At(config, id, inputs, lo), e, f, k);
    }
  }

  /**
   * Over every run, on any input: of two reports that answer checkpoints into the same import slot, in use all
   * the time between them, the later one is of the same session and has the larger serial.
   */
  lemma ReportSerialsIncrease(config: Config, id: nat, inputs: seq<(Input, int)>, k: nat, i: nat, j: nat, r: Segment,
                              q: Segment)
    requires ConfigOk(config) && i < j < |inputs|
    requires forall p :: i < p <= j ==> InUse(At(config, id, inputs, p), k)
    requires Answers(At(config, id, inputs, i), inputs[i].0, inputs[i].1, k, r)
    requires Answers(At(config, id, inputs, j), inputs[j].0, inputs[j].1, k, q)
    ensures r.ReportSeg? && q.ReportSeg? && q.hdr.session == r.hdr.session && r.rptSerial < q.rptSerial
  {
    assert InUse(At(config, id, inputs, i + 1), k) && InUse(At(config, id, inputs, j), k);
    hide At, Respond, Answers;
    AtNext(config, id, inputs, i);
    AnswerTakesNext(At(config, id, inputs, i), inputs[i].0, inputs[i].1, k, r);
    SlotRises(config, id, inputs, k, i + 1, j);
    AnswerTakesNext(At(config, id, inputs, j), inputs[j].0, inputs[j].1, k, q);
  }
}
