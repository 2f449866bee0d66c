/** What the four cancel segments do, on octets, and the exchange that cancels a session on both sides. */
module LtpCancel {
  import opened Bytes
  import opened LtpSegment
  import opened LtpState
  import opened LtpSteps
  import opened LtpDiscipline
  import opened LtpAcknowledged
  import opened Sdnv

  /** Identifiers are 64-bit numbers; the encoder takes all of them. */
  const U64_LIMIT := 0x1_0000_0000_0000_0000

  /** Octets that decode as a cancel segment of that kind, about that session of that engine. */
  predicate IsCancel(buf: seq<byte>, kind: nat, engine: nat, session: nat) {
    match DecodeHeader(buf)
    case None => false
    case Some(f) =>
      && f.hdr.kind == kind && f.hdr.engine == engine && f.hdr.session == session
      && (kind == CANCEL_BY_SENDER || kind == CANCEL_BY_RECVR ==> f.body != [])
  }

  // ---- The tables afterwards ----

  /** The import session is closed; every other slot is as it was. */
  ghost predicate ImportGone(ms: seq<Import>, ns: seq<Import>, engine: nat, session: nat) {
    && |ns| == |ms|
    && forall k :: 0 <= k < |ns| ==>
         ns[k] == if ms[k].active && ms[k].engine == engine && ms[k].session == session then ms[k].(active := false) else ms[k]
  }

  /** The export session is closed and marked as cancelled; every other slot is as it was. */
  ghost predicate ExportGone(xs: seq<Export>, ys: seq<Export>, session: nat) {
    && |ys| == |xs|
    && forall k :: 0 <= k < |ys| ==>
         ys[k] == if xs[k].active && xs[k].session == session then xs[k].(active := false, cancelled := true) else xs[k]
  }

  ghost predicate NoImport(ms: seq<Import>, engine: nat, session: nat) {
    forall k :: 0 <= k < |ms| && ms[k].active ==> !(ms[k].engine == engine && ms[k].session == session)
  }

  ghost predicate NoExport(xs: seq<Export>, session: nat) {
    forall k :: 0 <= k < |xs| && xs[k].active ==> xs[k].session != session
  }

  lemma CloseImportIs(e: Engine, engine: nat, session: nat)
    requires UniqueImports(e.imports)
    ensures var f := CloseImport(e, engine, session);
            && f == e.(imports := f.imports) && ImportGone(e.imports, f.imports, engine, session)
            && NoImport(f.imports, engine, session)
  {
  }

  lemma CloseExportIs(e: Engine, session: nat)
    requires UniqueExports(e.exports, e.nextSession)
    ensures var f := CloseExport(e, session);
            && f == e.(exports := f.exports) && ExportGone(e.exports, f.exports, session) && NoExport(f.exports, session)
  {
  }

  // ---- The answers ----

  /** A cancel segment as an engine writes one. */
  function Cancelling(id: nat, kind: nat, session: nat): Segment {
    CancelSeg(Header(0, kind, id, session, 0, 0), 0)
  }

  lemma CancelWritten(id: nat, kind: nat, session: nat)
    requires id < U64_LIMIT && session < U64_LIMIT && CANCEL_BY_SENDER <= kind <= CANCEL_ACK_RECVR
    ensures WellFormed(Cancelling(id, kind, session)) && Fits(Cancelling(id, kind, session), SEGMENT_BUF)
  {
    EncodeFitsTen(id);
    EncodeFitsTen(session);
    TwoIds(id, session);
    var ids := [id, session];
    assert ids + ContentFields(Cancelling(id, kind, session)) == ids;
    hide Encode, FieldsBytes;
    assert |Body(Cancelling(id, kind, session))| == 1 by { NoFields(); }
  }

  lemma NoFields()
    ensures FieldsBytes([]) == []
  {
  }

  lemma TwoIds(a: nat, b: nat)
    ensures FieldsBytes([a, b]) == Encode(a) + Encode(b)
  {
    hide Encode;
    assert [a, b][1..] == [b] && [b][1..] == [];
    assert FieldsBytes([b]) == Encode(b) + FieldsBytes([]);
    assert Encode(b) + [] == Encode(b);
  }

  lemma SmallIds(buf: seq<byte>)
    requires DecodeHeader(buf).Some?
    ensures DecodeHeader(buf).value.hdr.engine < INT64_LIMIT && DecodeHeader(buf).value.hdr.session < INT64_LIMIT
  {
    hide Fields, SkipExtensions;
    FieldsCount(buf[1..], 2);
    var ids := Fields(buf[1..], 2).value.fields;
    assert ids[0] < INT64_LIMIT && ids[1] < INT64_LIMIT;
  }

  lemma Dispatched(e: Engine, buf: seq<byte>, kind: nat, engine: nat, session: nat, now: int)
    requires CANCEL_BY_SENDER <= kind <= CANCEL_ACK_RECVR && IsCancel(buf, kind, engine, session)
    ensures var h := DecodeHeader(buf).value.hdr;
            && Process(e, buf, now) == HandleCancel(e, h) && h.kind == kind && h.engine == engine && h.session == session
            && session < INT64_LIMIT
  {
    SmallIds(buf);
    hide DecodeHeader, HandleCancel;
  }

  // ---- The four kinds ----

  /** The sender gives its session up: the import session is closed, and exactly one acknowledgement is written. */
  lemma CancelBySender(e: Engine, buf: seq<byte>, engine: nat, session: nat, now: int)
    requires IsCancel(buf, CANCEL_BY_SENDER, engine, session) && UniqueImports(e.imports) && e.localId < U64_LIMIT
    ensures var f := Process(e, buf, now);
            && f.engine == e.(imports := f.engine.imports) && f.delivered == []
            && ImportGone(e.imports, f.engine.imports, engine, session) && NoImport(f.engine.imports, engine, session)
            && f.sent == [Cancelling(e.localId, CANCEL_ACK_SENDER, session)]
  {
    Dispatched(e, buf, CANCEL_BY_SENDER, engine, session, now);
    hide Process, Fits, IsCancel, UniqueImports, ImportGone, NoImport, CloseImport;
    CloseImportIs(e, engine, session);
    CancelWritten(e.localId, CANCEL_ACK_SENDER, session);
  }

  /** The peer has acknowledged that: the export session is closed and its cancel timer stopped; nothing is written. */
  lemma CancelAckToSender(e: Engine, buf: seq<byte>, engine: nat, session: nat, now: int)
    requires IsCancel(buf, CANCEL_ACK_SENDER, engine, session) && UniqueExports(e.exports, e.nextSession)
    ensures var f := Process(e, buf, now);
            && f.engine == e.(exports := f.engine.exports, timers := f.engine.timers) && f.sent == [] && f.delivered == []
            && ExportGone(e.exports, f.engine.exports, session) && NoExport(f.engine.exports, session)
            && FirstStopped(e.timers, f.engine.timers, CANCEL_TIMER, session, 0)
  {
    Dispatched(e, buf, CANCEL_ACK_SENDER, engine, session, now);
    hide Process, IsCancel, UniqueExports, ExportGone, NoExport, CloseExport, CancelTimer, FirstStopped;
    CloseExportIs(e, session);
    CancelStopsFirst(e.timers, CANCEL_TIMER, session, 0);
  }

  /** The receiver gives its session up: the export session is closed, and exactly one acknowledgement is written. */
  lemma CancelByReceiver(e: Engine, buf: seq<byte>, engine: nat, session: nat, now: int)
    requires IsCancel(buf, CANCEL_BY_RECVR, engine, session) && UniqueExports(e.exports, e.nextSession) && e.localId < U64_LIMIT
    ensures var f := Process(e, buf, now);
            && f.engine == e.(exports := f.engine.exports) && f.delivered == []
            && ExportGone(e.exports, f.engine.exports, session) && NoExport(f.engine.exports, session)
            && f.sent == [Cancelling(e.localId, CANCEL_ACK_RECVR, session)]
  {
    Dispatched(e, buf, CANCEL_BY_RECVR, engine, session, now);
    hide Process, Fits, IsCancel, UniqueExports, ExportGone, NoExport, CloseExport;
    CloseExportIs(e, session);
    CancelWritten(e.localId, CANCEL_ACK_RECVR, session);
  }

  /** The peer has acknowledged that: the import session is closed and its cancel timer stopped; nothing is written. */
  lemma CancelAckToReceiver(e: Engine, buf: seq<byte>, engine: nat, session: nat, now: int)
    requires IsCancel(buf, CANCEL_ACK_RECVR, engine, session) && UniqueImports(e.imports)
    ensures var f := Process(e, buf, now);
            && f.engine == e.(imports := f.engine.imports, timers := f.engine.timers) && f.sent == [] && f.delivered == []
            && ImportGone(e.imports, f.engine.imports, engine, session) && NoImport(f.engine.imports, engine, session)
            && FirstStopped(e.timers, f.engine.timers, CANCEL_TIMER, session, 0)
  {
    Dispatched(e, buf, CANCEL_ACK_RECVR, engine, session, now);
    hide Process, IsCancel, UniqueImports, ImportGone, NoImport, CloseImport, CancelTimer, FirstStopped;
    CloseImportIs(e, engine, session);
    CancelStopsFirst(e.timers, CANCEL_TIMER, session, 0);
  }

  // ---- The exchange ----

  lemma CancelDecodes(id: nat, kind: nat, session: nat)
    requires id < INT64_LIMIT && session < INT64_LIMIT && CANCEL_BY_SENDER <= kind <= CANCEL_ACK_RECVR
    ensures IsCancel(Wire(Cancelling(id, kind, session)), kind, id, session)
  {
    var c := Cancelling(id, kind, session);
    hide DecodeHeader, Wire;
    SegmentRoundTrip(c);
    assert Body(c) == [0];
  }

  /** The session is marked, one cancel segment goes out, and its timer is started in the first free slot. */
  lemma SessionCancelled(e: Engine, session: nat, now: int)
    requires UniqueExports(e.exports, e.nextSession) && !NoExport(e.exports, session)
    requires e.localId < U64_LIMIT && session < U64_LIMIT
    ensures var f := CancelSession(e, session, now);
            && f.sent == [Cancelling(e.localId, CANCEL_BY_SENDER, session)] && f.delivered == []
            && f.engine == e.(exports := f.engine.exports, timers := f.engine.timers)
            && UniqueExports(f.engine.exports, f.engine.nextSession) && Marked(e.exports, f.engine.exports, session)
            && Started(e.timers, f.engine.timers, session)
  {
    hide Fits;
    CancelWritten(e.localId, CANCEL_BY_SENDER, session);
  }

  /** The session's slot is marked as cancelled, and stays open until the peer has answered. */
  ghost predicate Marked(xs: seq<Export>, ys: seq<Export>, session: nat) {
    && |ys| == |xs|
    && forall k :: 0 <= k < |ys| ==>
         ys[k] == if xs[k].active && xs[k].session == session then xs[k].(cancelled := true) else xs[k]
  }

  /** With a slot free, the session's cancel timer is started in the first one. */
  ghost predicate Started(ts: seq<Timer>, us: seq<Timer>, session: nat) {
    && |us| == |ts| && (forall j :: 0 <= j < |ts| && ts[j].active ==> us[j] == ts[j])
    && forall j :: 0 <= j < |ts| && !ts[j].active ==>
         if forall i :: 0 <= i < j ==> ts[i].active then TimerMatches(us[j], CANCEL_TIMER, session, 0) && us[j].retries == 0
         else us[j] == ts[j]
  }

  lemma MarkedThenGone(xs: seq<Export>, ys: seq<Export>, zs: seq<Export>, session: nat)
    requires Marked(xs, ys, session) && ExportGone(ys, zs, session)
    ensures ExportGone(xs, zs, session)
  {
  }

  /** No cancel timer of the session was running, so none is once the first of them has been stopped. */
  ghost predicate Quieted(ts: seq<Timer>, vs: seq<Timer>) {
    |vs| == |ts| && forall j :: 0 <= j < |ts| ==> if ts[j].active then vs[j] == ts[j] else !vs[j].active
  }

  lemma StartedThenStopped(ts: seq<Timer>, us: seq<Timer>, vs: seq<Timer>, session: nat)
    requires Started(ts, us, session) && FirstStopped(us, vs, CANCEL_TIMER, session, 0)
    requires forall j :: 0 <= j < |ts| ==> !TimerMatches(ts[j], CANCEL_TIMER, session, 0)
    ensures Quieted(ts, vs)
  {
    forall j | 0 <= j < |ts| ensures if ts[j].active then vs[j] == ts[j] else !vs[j].active {
      if !ts[j].active && us[j].active {
        assert forall i :: 0 <= i < j ==> ts[i].active;
        assert forall i :: 0 <= i < j ==> us[i] == ts[i];
      }
    }
  }

  /**
   * Cancelling: the sender marks its session and writes one segment; the peer receives it, closes its import
   * session and answers; the answer, received, closes the export session and stops the cancel timer. Nothing else
   * has changed on either side.
   */
  lemma CancelExchange(p: Engine, q: Engine, n: nat, t0: int, t1: int, t2: int)
    requires UniqueExports(p.exports, p.nextSession) && UniqueImports(q.imports) && !NoExport(p.exports, n)
    requires p.localId < INT64_LIMIT && q.localId < INT64_LIMIT && n < INT64_LIMIT
    ensures var c := CancelSession(p, n, t0);
            |c.sent| == 1
            && var d := Process(q, Wire(c.sent[0]), t1);
               && |d.sent| == 1 && d.delivered == [] && d.engine == q.(imports := d.engine.imports)
               && ImportGone(q.imports, d.engine.imports, p.localId, n) && NoImport(d.engine.imports, p.localId, n)
               && var f := Process(c.engine, Wire(d.sent[0]), t2);
                  && f.sent == [] && f.delivered == []
                  && f.engine == p.(exports := f.engine.exports, timers := f.engine.timers)
                  && ExportGone(p.exports, f.engine.exports, n) && NoExport(f.engine.exports, n)
                  && FirstStopped(c.engine.timers, f.engine.timers, CANCEL_TIMER, n, 0)
                  && ((forall j :: 0 <= j < |p.timers| ==> !TimerMatches(p.timers[j], CANCEL_TIMER, n, 0))
                      ==> Quieted(p.timers, f.engine.timers))
  {
    hide Process, Wire, CancelSession, IsCancel, UniqueExports, UniqueImports, NoExport, NoImport, ImportGone, ExportGone,
         FirstStopped, Started, Quieted, TimerMatches, Marked, Cancelling;
    SessionCancelled(p, n, t0);
    var c := CancelSession(p, n, t0);
    CancelDecodes(p.localId, CANCEL_BY_SENDER, n);
    CancelBySender(q, Wire(c.sent[0]), p.localId, n, t1);
    var d := Process(q, Wire(c.sent[0]), t1);
    CancelDecodes(q.localId, CANCEL_ACK_SENDER, n);
    CancelAckToSender(c.engine, Wire(d.sent[0]), q.localId, n, t2);
    var f := Process(c.engine, Wire(d.sent[0]), t2);
    MarkedThenGone(p.exports, c.engine.exports, f.engine.exports, n);
    if forall j :: 0 <= j < |p.timers| ==> !TimerMatches(p.timers[j], CANCEL_TIMER, n, 0) {
      StartedThenStopped(p.timers, c.engine.timers, f.engine.timers, n);
    }
  }

  /** The timer repeats the very segment the cancelling wrote. */
  lemma CancelRepeated(e: Engine, i: nat, now: int)
    requires i < |e.timers| && Expired(e.timers[i], now) && e.timers[i].kind == CANCEL_TIMER
    requires e.timers[i].retries + 1 < AsInt32(e.config.maxRetries)
    requires e.localId < U64_LIMIT && e.timers[i].session < U64_LIMIT
    ensures FireSlot(e, i, now).sent == [Cancelling(e.localId, CANCEL_BY_SENDER, e.timers[i].session)]
  {
    hide Fits;
    CancelWritten(e.localId, CANCEL_BY_SENDER, e.timers[i].session);
  }
}
