/**
 * The engine as ltp.c runs it: tables updated in place, segments encoded into a 512-octet buffer and
 * written to the link, proved against LtpSteps.
 */
module LtpEngine {
  import opened Bytes
  import opened ClaimMap
  import opened LtpSegment
  import opened LtpState
  import opened LtpSegmentation
  import S = LtpSteps
  import Codec = LtpCodec
  import RecvMap
  import opened Division
  import opened Sequences

  /** The octets of segments written one after another. */
  function WireAll(ss: seq<Segment>): seq<seq<byte>> {
    if ss == [] then [] else [Wire(ss[0])] + WireAll(ss[1..])
  }

  lemma {:induction false} WireAllAppend(a: seq<Segment>, b: seq<Segment>)
    ensures WireAll(a + b) == WireAll(a) + WireAll(b)
  {
    hide Wire;
    if a == [] {
      assert a + b == b;
    } else {
      WireAllAppend(a[1..], b);
      Assoc([Wire(a[0])], WireAll(a[1..]), WireAll(b));
      assert (a + b)[0] == a[0] && (a + b)[1..] == a[1..] + b;
    }
  }

  class LtpEngine {
    const config: Config
    const localId: nat
    var nextSession: nat
    const exports: array<Export>
    const imports: array<Import>
    const timers: array<Timer>
    var sent: seq<seq<byte>>         // what has been written to the link
    var delivered: seq<Delivery>     // calls of the block callback

    ghost predicate Valid()
      reads this
    {
      && ConfigOk(config) && nextSession > 0
      && exports.Length == MAX_EXPORT_SESSIONS && imports.Length == MAX_IMPORT_SESSIONS && timers.Length == MAX_TIMERS
    }

    /** The tables as values. */
    ghost function State(): Engine
      reads this, exports, imports, timers
    {
      Engine(config, localId, nextSession, exports[..], imports[..], timers[..])
    }

    constructor (config: Config, localId: nat)
      requires ConfigOk(config)
      ensures Valid() && State() == InitialEngine(config, localId) && sent == [] && delivered == []
      ensures fresh(exports) && fresh(imports) && fresh(timers)
    {
      this.config, this.localId := config, localId;
      nextSession := 1;
      var noExport, noImport, noTimer := NoExport(), NoImport(), NoTimer();
      exports := new Export[MAX_EXPORT_SESSIONS](_ => noExport);
      imports := new Import[MAX_IMPORT_SESSIONS](_ => noImport);
      timers := new Timer[MAX_TIMERS](_ => noTimer);
      sent, delivered := [], [];
    }

    // ---- Timers ----

    /** Finds an inactive slot and starts a timer there; with none free the timer is simply not started. */
    method StartTimer(kind: nat, engine: nat, session: nat, serial: nat, now: int)
      requires Valid()
      modifies timers
      ensures timers[..] == S.StartTimer(old(timers[..]), kind, engine, session, serial, now + S.TimerDuration(config))
    {
      for i := 0 to timers.Length
        invariant timers[..] == old(timers[..])
        invariant forall k :: 0 <= k < i ==> timers[k].active
      {
        if !timers[i].active {
          assert i == FreeTimer(timers[..]);
          timers[i] := Timer(true, kind, engine, session, serial, 0, now + S.TimerDuration(config));
          return;
        }
      }
      assert FreeTimer(timers[..]) == |timers[..]|;
    }

    /** Stops the first active timer of the given kind, session and serial. */
    method CancelTimer(kind: nat, session: nat, serial: nat)
      requires Valid()
      modifies timers
      ensures timers[..] == S.CancelTimer(old(timers[..]), kind, session, serial)
    {
      for i := 0 to timers.Length
        invariant timers[..] == old(timers[..])
        invariant forall k :: 0 <= k < i ==> !TimerMatches(timers[k], kind, session, serial)
      {
        var t := timers[i];
        if t.active && t.kind == kind && t.session == session && t.serial == serial {
          assert i == FindTimer(timers[..], kind, session, serial);
          timers[i] := t.(active := false);
          return;
        }
      }
      assert FindTimer(timers[..], kind, session, serial) == |timers[..]|;
    }

    // ---- Writing ----

    method WriteData(s: Segment) returns (written: bool)
      requires s.DataSeg?
      modifies this`sent
      ensures written == Fits(s, SEGMENT_BUF) && sent == old(sent) + WireAll(S.Emit(s))
    {
      var buf := new byte[SEGMENT_BUF];
      var n := Codec.EncodeDataSegment(s, buf);
      if n > 0 {
        sent := sent + [buf[..n]];
      }
      OneWire(s);
      written := n > 0;
    }

    method WriteReport(s: Segment)
      requires s.ReportSeg?
      modifies this`sent
      ensures sent == old(sent) + WireAll(S.Emit(s))
    {
      var buf := new byte[SEGMENT_BUF];
      var n := Codec.EncodeReport(s, buf);
      if n > 0 {
        sent := sent + [buf[..n]];
      }
      OneWire(s);
    }

    method WriteAck(s: Segment)
      requires s.AckSeg?
      modifies this`sent
      ensures sent == old(sent) + WireAll(S.Emit(s))
    {
      var buf := new byte[SEGMENT_BUF];
      var n := Codec.EncodeReportAck(s, buf);
      if n > 0 {
        sent := sent + [buf[..n]];
      }
      OneWire(s);
    }

    method WriteCancel(kind: nat, session: nat)
      modifies this`sent
      ensures sent == old(sent) + WireAll(S.Emit(S.CancelSegment(State(), kind, session)))
    {
      var s := CancelSeg(Header(0, kind, localId, session, 0, 0), 0);
      var buf := new byte[SEGMENT_BUF];
      var n := Codec.EncodeCancel(s, buf);
      if n > 0 {
        sent := sent + [buf[..n]];
      }
      OneWire(s);
    }

    // ---- Searches ----

    method LookupExport(session: nat) returns (k: nat)
      ensures k == FindExport(exports[..], session)
    {
      k := 0;
      while k < exports.Length
        invariant k <= exports.Length
        invariant forall i :: 0 <= i < k ==> !(exports[i].active && exports[i].session == session)
      {
        if exports[k].active && exports[k].session == session {
          return;
        }
        k := k + 1;
      }
    }

    method LookupOwnExport(session: nat) returns (k: nat)
      ensures k == FindOwnExport(exports[..], localId, session)
    {
      k := 0;
      while k < exports.Length
        invariant k <= exports.Length
        invariant forall i :: 0 <= i < k ==>
                    !(exports[i].active && exports[i].engine == localId && exports[i].session == session)
      {
        if exports[k].active && exports[k].engine == localId && exports[k].session == session {
          return;
        }
        k := k + 1;
      }
    }

    method LookupFreeExport() returns (k: nat)
      ensures k == FreeExport(exports[..])
    {
      k := 0;
      while k < exports.Length
        invariant k <= exports.Length
        invariant forall i :: 0 <= i < k ==> exports[i].active
      {
        if !exports[k].active {
          return;
        }
        k := k + 1;
      }
    }

    method LookupImport(engine: nat, session: nat) returns (k: nat)
      ensures k == FindImport(imports[..], engine, session)
    {
      k := 0;
      while k < imports.Length
        invariant k <= imports.Length
        invariant forall i :: 0 <= i < k ==>
                    !(imports[i].active && imports[i].engine == engine && imports[i].session == session)
      {
        if imports[k].active && imports[k].engine == engine && imports[k].session == session {
          return;
        }
        k := k + 1;
      }
    }

    method LookupImportByNumber(session: nat) returns (k: nat)
      ensures k == FindImportByNumber(imports[..], session)
    {
      k := 0;
      while k < imports.Length
        invariant k <= imports.Length
        invariant forall i :: 0 <= i < k ==> !(imports[i].active && imports[i].session == session)
      {
        if imports[k].active && imports[k].session == session {
          return;
        }
        k := k + 1;
      }
    }

    method LookupFreeImport() returns (k: nat)
      ensures k == FreeImport(imports[..])
    {
      k := 0;
      while k < imports.Length
        invariant k <= imports.Length
        invariant forall i :: 0 <= i < k ==> imports[i].active
      {
        if !imports[k].active {
          return;
        }
        k := k + 1;
      }
    }

    // ---- Sending a block ----

    /** Opens a session, cuts the block into segments and writes them until one does not fit; then arms the timer. */
    method SendBlock(remote: nat, block: seq<byte>, now: int) returns (ok: bool)
      requires Valid()
      modifies this`nextSession, this`sent, exports, timers
      ensures Valid()
      ensures var f := S.SendBlock(old(State()), remote, block, now);
              && State() == f.engine && sent == old(sent) + WireAll(f.sent)
              && (ok <==> S.CanSend(old(State()), block)
                          && |f.sent| == |S.BlockSegments(old(State()), remote, block)|)
    {
      ghost var e := State();
      if |block| == 0 || |block| > config.maxBlockSize {
        Untouched(sent, delivered);
        return false;
      }
      var slot := LookupFreeExport();
      if slot == exports.Length {
        Untouched(sent, delivered);
        return false;
      }
      ghost var ss := S.BlockSegments(e, remote, block);
      OpenExport(slot, remote, block, ss);
      ok := WriteBlock(exports[slot], ss);
      if ok {
        ArmNewest(now);
      }
      SendOutcome(e, remote, block, now, ss);
    }

    method OpenExport(slot: nat, remote: nat, block: seq<byte>, ghost ss: seq<Segment>)
      requires Valid() && slot < exports.Length && slot == FreeExport(exports[..]) && |block| <= MAX_BLOCK_SIZE
      requires ss == S.BlockSegments(State(), remote, block)
      modifies this`nextSession, exports
      ensures Valid() && State() == S.AfterOpen(old(State()), remote, block)
      ensures exports[slot].mtu > 0 && ss == CellsFrom(exports[slot], 0)
    {
      exports[slot] := Export(true, localId, nextSession, remote, S.Padded(block), |block|, config.mtu, 2, false, false);
      nextSession := nextSession + 1;
    }

    /** The timer of the checkpoint just written. */
    method ArmNewest(now: int)
      requires Valid()
      modifies timers
      ensures State() == S.ArmNewest(old(State()), now)
    {
      var k := LookupOwnExport(nextSession - 1);
      if k < exports.Length {
        StartTimer(CHECKPOINT_TIMER, exports[k].engine, exports[k].session, S.LastSerial(exports[k].nextCp), now);
      }
    }

    /** The segmentation loop: one segment a cell, the last one the checkpoint that ends the block. */
    method WriteBlock(x: Export, ghost ss: seq<Segment>) returns (ok: bool)
      requires x.mtu > 0 && ss == CellsFrom(x, 0)
      modifies this`sent
      ensures sent == old(sent) + WireAll(S.EmitUntilStuck(ss)) && (ok <==> AllSent(ss))
    {
      var offset: nat := 0;
      ghost var rest := ss;
      ghost var goal := sent + WireAll(S.EmitUntilStuck(ss));
      while offset < x.len
        invariant offset <= x.len && rest == CellsFrom(x, offset)
        invariant sent + WireAll(S.EmitUntilStuck(rest)) == goal && (AllSent(ss) <==> AllSent(rest))
      {
        ok, offset, rest := WriteCell(x, offset, rest);
        if !ok {
          return;
        }
      }
      NoCells(x, offset, sent);
      ok := true;
    }

    /** One cell of the block. */
    method WriteCell(x: Export, offset: nat, ghost rest: seq<Segment>) returns (ok: bool, next: nat, ghost left: seq<Segment>)
      requires x.mtu > 0 && offset < x.len && rest == CellsFrom(x, offset)
      modifies this`sent
      ensures offset < next <= x.len && left == CellsFrom(x, next)
      ensures AllSent(rest) <==> ok && AllSent(left)
      ensures old(sent) + WireAll(S.EmitUntilStuck(rest)) == if ok then sent + WireAll(S.EmitUntilStuck(left)) else sent
    {
      hide CellsFrom, S.EmitUntilStuck, WireAll, AllSent;
      var chunk := if x.len - offset > x.mtu then x.mtu else x.len - offset;
      next := offset + chunk;
      var last := next >= x.len;
      var s := DataSegment(x, if last then RED_DATA_EORP_CP else RED_DATA, Claim(offset, chunk), if last then 1 else 0);
      left := CellsFrom(x, next);
      CellStep(x, offset, chunk, s);
      ok := WriteStuck(s, rest, left);
    }

    method WriteStuck(s: Segment, ghost rest: seq<Segment>, ghost left: seq<Segment>) returns (ok: bool)
      requires s.DataSeg? && rest == [s] + left
      modifies this`sent
      ensures AllSent(rest) <==> ok && AllSent(left)
      ensures old(sent) + WireAll(S.EmitUntilStuck(rest)) == if ok then sent + WireAll(S.EmitUntilStuck(left)) else sent
    {
      StuckStep(sent, s, left);
      ok := WriteData(s);
    }

    // ---- Receiving data ----

    /** Copies an accepted range into the session in slot k, claims it, and runs the completion tests. */
    method AcceptInto(k: nat, kind: nat, offset: nat, payload: seq<byte>)
      requires Valid() && k < imports.Length && offset + |payload| <= MAX_BLOCK_SIZE
      modifies imports
      ensures imports[..] == old(imports[..])[k := S.Accept(old(imports[k]), kind, offset, payload)]
    {
      var m := imports[k];
      var claims := AddToMap(m.claims, offset, |payload|);
      var r := Accepted(m, kind, offset, payload, claims);
      imports[k] := r;
    }

    /** The session's slot, or a free one opened for it; the table's size when there is neither. */
    method FindOrOpen(h: Header) returns (k: nat)
      requires Valid()
      modifies imports
      ensures k == S.ImportSlot(old(State()), h)
      ensures imports[..] == if k < imports.Length then old(imports[..])[k := S.ImportAt(old(State()), h)] else old(imports[..])
    {
      k := LookupImport(h.engine, h.session);
      if k == imports.Length {
        k := LookupFreeImport();
        if k < imports.Length {
          imports[k] := S.OpenedImport(h.engine, h.session);
        }
      }
    }

    method HandleData(s: Segment, now: int) returns (ok: bool)
      requires Valid() && s.DataSeg?
      modifies this`sent, this`delivered, imports, timers
      ensures Valid()
      ensures var f := S.HandleData(old(State()), s, now);
              && State() == f.engine && sent == old(sent) + WireAll(f.sent) && delivered == old(delivered) + f.delivered
      ensures ok <==> S.ImportSlot(old(State()), s.hdr) < imports.Length && s.offset + |s.payload| <= MAX_BLOCK_SIZE
    {
      ghost var e := State();
      var k := FindOrOpen(s.hdr);
      if k == imports.Length || s.offset + |s.payload| > MAX_BLOCK_SIZE {
        Untouched(sent, delivered);
        return false;
      }
      Store(e, k, s, now);
      DataOutcome(e, s, now, k, imports[..], timers[..]);
      ok := true;
    }

    /** A segment that fits: copied in and claimed, reported when it is a checkpoint, delivered when it completes. */
    method Store(ghost e: Engine, k: nat, s: Segment, now: int)
      requires Valid() && s.DataSeg? && k < imports.Length && s.offset + |s.payload| <= MAX_BLOCK_SIZE
      requires e.config == config && e.localId == localId && e.timers == timers[..]
      modifies this`sent, this`delivered, imports, timers
      ensures Valid()
      ensures var m := S.Accept(old(imports[k]), s.hdr.kind, s.offset, s.payload);
              && imports[..] == old(imports[..])[k := S.Settle(m, s.hdr.kind)]
              && timers[..] == S.ArmReport(e, m, s.hdr.kind, now)
              && sent == old(sent) + WireAll(S.ReportFor(e, m, s))
              && delivered == old(delivered) + S.DeliveryOf(m)
    {
      AcceptInto(k, s.hdr.kind, s.offset, s.payload);
      ReportOn(e, k, s, now);
      Deliver(k, s.hdr.kind);
    }

    /** A checkpoint is answered with a report of the claims, under a retransmission timer. */
    method ReportOn(ghost e: Engine, k: nat, s: Segment, now: int)
      requires Valid() && s.DataSeg? && k < imports.Length && s.offset + |s.payload| <= MAX_BLOCK_SIZE
      requires e.config == config && e.localId == localId && e.timers == timers[..]
      modifies this`sent, timers
      ensures Valid()
      ensures timers[..] == S.ArmReport(e, imports[k], s.hdr.kind, now)
      ensures sent == old(sent) + WireAll(S.ReportFor(e, imports[k], s))
    {
      NothingWritten(sent);
      if IsCheckpoint(s.hdr.kind) {
        ReportClaims(imports[k], s);
        StartTimer(REPORT_TIMER, imports[k].engine, imports[k].session, imports[k].nextRpt, now);
      }
    }

    method ReportClaims(m: Import, s: Segment)
      requires s.DataSeg? && IsCheckpoint(s.hdr.kind)
      modifies this`sent
      ensures sent == old(sent) + WireAll(S.Emit(S.CheckpointReport(old(State()), m, s)))
    {
      WriteReport(ReportSeg(Header(0, REPORT, localId, s.hdr.session, 0, 0), m.nextRpt, s.cpSerial,
                            if m.len > 0 then m.len else s.offset + |s.payload|, 0, m.claims));
    }

    /** Uses up the report serial of a checkpoint, hands over a completed block and frees its slot. */
    method Deliver(k: nat, kind: nat)
      requires Valid() && k < imports.Length
      modifies this`delivered, imports
      ensures Valid()
      ensures imports[..] == old(imports[..])[k := S.Settle(old(imports[k]), kind)]
      ensures delivered == old(delivered) + S.DeliveryOf(old(imports[k]))
    {
      var m := imports[k];
      if IsCheckpoint(kind) {
        imports[k] := m.(nextRpt := m.nextRpt + 1);
      }
      if m.complete && !m.delivered {
        delivered := delivered + [Delivery(m.engine, m.session, m.data[..m.len])];
        imports[k] := imports[k].(delivered := true, active := false);
      }
    }

    // ---- Receiving a report ----

    method HandleReport(s: Segment, now: int) returns (ok: bool)
      requires Valid() && s.ReportSeg? && |s.claims| <= MAX_CLAIMS
      modifies this`sent, exports, timers
      ensures Valid()
      ensures var f := S.HandleReport(old(State()), s, now);
              && State() == f.engine && sent == old(sent) + WireAll(f.sent)
      ensures ok <==> FindOwnExport(old(exports[..]), localId, s.hdr.session) < exports.Length
    {
      ghost var e, before := State(), sent;
      var k := LookupOwnExport(s.hdr.session);
      if k == exports.Length {
        Untouched(sent, delivered);
        return false;
      }
      var ack := AckSeg(Header(0, REPORT_ACK, localId, s.hdr.session, 0, 0), s.rptSerial);
      WriteAck(ack);
      CancelTimer(CHECKPOINT_TIMER, s.hdr.session, s.cpSerial);
      var x := exports[k];
      ok := true;
      ghost var ts := timers[..];
      if |s.claims| == 1 && s.claims[0].offset == 0 && s.claims[0].length >= x.len {
        exports[k] := x.(completed := true);
        AcknowledgedOutcome(e, s, now, k, ack);
      } else {
        ghost var ps := Missing(x, config, s.claims, s.lower, s.upper);
        Repeat(k, s, ps, now);
        RepeatOutcome(e, s, now, k, ack, ps, before);
      }
    }

    /** Writes what the report misses and arms the timer of the new checkpoint. */
    method Repeat(k: nat, s: Segment, ghost ps: seq<Claim>, now: int)
      requires Valid() && s.ReportSeg? && |s.claims| <= MAX_CLAIMS && k < exports.Length
      requires ps == Missing(exports[k], config, s.claims, s.lower, s.upper)
      modifies this`sent, exports, timers
      ensures Valid()
      ensures exports[..] == old(exports[..])[k := S.AfterResend(old(exports[k]), ps)]
      ensures timers[..] == S.ArmResent(old(timers[..]), config, S.AfterResend(old(exports[k]), ps), now)
      ensures sent == old(sent) + Resent(old(exports[k]), ps)
    {
      var x := exports[k];
      var count := RetransmitMissing(x, s.claims, s.lower, s.upper, ps);
      if count > 0 {
        exports[k] := x.(nextCp := x.nextCp + 1);
      }
      StartTimer(CHECKPOINT_TIMER, x.engine, x.session, S.LastSerial(exports[k].nextCp), now);
    }

    /** The missing ranges in a table of seventeen, counted, then written piece by piece. */
    method RetransmitMissing(x: Export, claims: seq<Claim>, lower: nat, upper: nat, ghost ps: seq<Claim>)
        returns (total: nat)
      requires |claims| <= MAX_CLAIMS && ps == Missing(x, config, claims, lower, upper)
      modifies this`sent
      ensures total == |ps| && sent == old(sent) + Resent(x, ps)
    {
      var top := if upper > x.len then x.len else upper;
      var gaps := CollectGaps(claims, lower, top);
      if |gaps| == 0 {
        return 0;
      }
      var mtu := x.mtu;
      if mtu == 0 { mtu := config.mtu; }
      if mtu == 0 { mtu := DEFAULT_SEGMENT_MTU; }
      total := CountPieces(gaps, mtu);
      WritePieces(x, gaps, mtu, total);
    }

    /** Writes every piece of every gap; the one that brings the count to total is the new checkpoint. */
    method WritePieces(x: Export, gaps: seq<Claim>, mtu: nat, total: nat)
      requires mtu > 0 && total == |AllPieces(gaps, mtu)|
      modifies this`sent
      ensures sent == old(sent) + Resent(x, AllPieces(gaps, mtu))
    {
      var idx: nat := 0;
      ghost var goal := sent + Resent(x, AllPieces(gaps, mtu));
      assert gaps[0..] == gaps;
      for m := 0 to |gaps|
        invariant sent + Resent(x, AllPieces(gaps[m..], mtu)) == goal
        invariant total == idx + |AllPieces(gaps[m..], mtu)|
      {
        assert gaps[m..][1..] == gaps[m + 1..];
        idx := WriteGap(x, gaps[m], mtu, AllPieces(gaps[m + 1..], mtu), idx, total);
      }
      assert gaps[|gaps|..] == [];
      NothingLeft(x, sent);
    }

    /** One gap, cut into pieces. */
    method WriteGap(x: Export, gap: Claim, mtu: nat, ghost after: seq<Claim>, idx: nat, total: nat) returns (next: nat)
      requires mtu > 0 && total == idx + |Pieces(gap.offset, gap.End(), mtu) + after|
      modifies this`sent
      ensures total == next + |after|
      ensures sent + Resent(x, after) == old(sent) + Resent(x, Pieces(gap.offset, gap.End(), mtu) + after)
    {
      var off: nat, end := gap.offset, gap.End();
      next := idx;
      ghost var rest := Pieces(off, end, mtu) + after;
      ghost var goal := sent + Resent(x, rest);
      while off < end
        invariant rest == Pieces(off, end, mtu) + after && total == next + |rest|
        invariant sent + Resent(x, rest) == goal
      {
        next := next + 1;
        off, rest := WritePiece(x, off, end, mtu, after, rest, next == total);
      }
      assert rest == after;
    }

    /** The next piece of a gap, as a checkpoint when it is the last of them all. */
    method WritePiece(x: Export, off: nat, end: nat, mtu: nat, ghost after: seq<Claim>, ghost rest: seq<Claim>, last: bool)
        returns (next: nat, ghost left: seq<Claim>)
      requires mtu > 0 && off < end && rest == Pieces(off, end, mtu) + after
      requires last <==> |rest| == 1
      modifies this`sent
      ensures next > off && left == Pieces(next, end, mtu) + after && |rest| == 1 + |left|
      ensures sent + Resent(x, left) == old(sent) + Resent(x, rest)
    {
      var chunk := if end - off > mtu then mtu else end - off;
      next := off + chunk;
      left := Pieces(next, end, mtu) + after;
      PieceStep(off, chunk, end, mtu, after, rest, left);
      var s := DataSegment(x, if last then RED_DATA_CP else RED_DATA, Claim(off, chunk), if last then x.nextCp else 0);
      ResentStep(x, Claim(off, chunk), rest, left, s, sent);
      var _ := WriteData(s);
    }

    // ---- Acknowledgements and cancellation ----

    method HandleAck(s: Segment)
      requires Valid() && s.AckSeg?
      modifies timers
      ensures Valid() && State() == S.HandleAck(old(State()), s).engine && S.HandleAck(old(State()), s).sent == []
    {
      CancelTimer(REPORT_TIMER, s.hdr.session, s.rptSerial);
    }

    method CloseImport(engine: nat, session: nat)
      requires Valid()
      modifies imports
      ensures Valid() && State() == S.CloseImport(old(State()), engine, session)
    {
      var k := LookupImport(engine, session);
      if k < imports.Length {
        imports[k] := imports[k].(active := false);
      }
    }

    method CloseExport(session: nat)
      requires Valid()
      modifies exports
      ensures Valid() && State() == S.CloseExport(old(State()), session)
    {
      var k := LookupExport(session);
      if k < exports.Length {
        exports[k] := exports[k].(active := false, cancelled := true);
      }
    }

    method HandleCancel(h: Header)
      requires Valid()
      modifies this`sent, exports, imports, timers
      ensures Valid()
      ensures var f := S.HandleCancel(old(State()), h);
              State() == f.engine && sent == old(sent) + WireAll(f.sent)
    {
      if h.kind == CANCEL_BY_SENDER {
        WriteCancel(CANCEL_ACK_SENDER, h.session);
        CloseImport(h.engine, h.session);
      } else if h.kind == CANCEL_ACK_SENDER {
        CloseExport(h.session);
        CancelTimer(CANCEL_TIMER, h.session, 0);
        Untouched(sent, delivered);
      } else if h.kind == CANCEL_BY_RECVR {
        WriteCancel(CANCEL_ACK_RECVR, h.session);
        CloseExport(h.session);
      } else {
        CloseImport(h.engine, h.session);
        CancelTimer(CANCEL_TIMER, h.session, 0);
        Untouched(sent, delivered);
      }
    }

    // ---- One received octet string ----

    /** Decodes the header and hands the body to the handler of its type; whatever does not parse changes nothing. */
    method ProcessSegment(buf: seq<byte>, now: int) returns (ok: bool)
      requires Valid()
      modifies this`sent, this`delivered, exports, imports, timers
      ensures Valid()
      ensures var f := S.Process(old(State()), buf, now);
              State() == f.engine && sent == old(sent) + WireAll(f.sent) && delivered == old(delivered) + f.delivered
      ensures ok <==> var f := DecodeHeader(buf); f.Some? && S.Accepted(old(State()), f.value.hdr, f.value.body)
    {
      var parsed, h, body := Codec.DecodeSegment(buf);
      if !parsed {
        Untouched(sent, delivered);
        return false;
      }
      ok := ProcessContent(h, body, now);
    }

    method ProcessContent(h: Header, body: seq<byte>, now: int) returns (ok: bool)
      requires Valid()
      modifies this`sent, this`delivered, exports, imports, timers
      ensures Valid()
      ensures var f := S.ProcessBody(old(State()), h, body, now);
              State() == f.engine && sent == old(sent) + WireAll(f.sent) && delivered == old(delivered) + f.delivered
      ensures ok <==> S.Accepted(old(State()), h, body)
    {
      ghost var e := State();
      Untouched(sent, delivered);
      ok := false;
      if h.kind <= RED_DATA_EORP_CP {
        var parsed, s := Codec.DecodeDataContent(h, body);
        if parsed {
          DataIsData(h, body);
          ok := HandleData(s, now);
          DispatchData(e, h, body, s, now);
        }
      } else if h.kind == REPORT {
        var parsed, s := Codec.DecodeReportContent(h, body);
        if parsed {
          ReportIsReport(h, body);
          ok := HandleReport(s, now);
          DispatchReport(e, h, body, s, now);
        }
      } else if h.kind == REPORT_ACK {
        var parsed, s := Codec.DecodeReportAckContent(h, body);
        if parsed {
          HandleAck(s);
          ok := true;
        }
      } else if h.kind == CANCEL_BY_SENDER || h.kind == CANCEL_BY_RECVR {
        var parsed, s := Codec.DecodeCancelContent(h, body);
        if parsed {
          HandleCancel(h);
          DispatchCancel(e, h, body, now);
          ok := true;
        }
      } else if h.kind == CANCEL_ACK_SENDER || h.kind == CANCEL_ACK_RECVR {
        HandleCancel(h);
        DispatchCancel(e, h, body, now);
        ok := true;
      }
    }

    // ---- Cancelling an export session ----

    method CancelSession(session: nat, now: int) returns (ok: bool)
      requires Valid()
      modifies this`sent, exports, timers
      ensures Valid()
      ensures var f := S.CancelSession(old(State()), session, now);
              State() == f.engine && sent == old(sent) + WireAll(f.sent)
      ensures ok <==> exists x :: x in old(exports[..]) && x.active && x.session == session
    {
      var k := LookupExport(session);
      if k == exports.Length {
        Untouched(sent, delivered);
        return false;
      }
      WriteCancel(CANCEL_BY_SENDER, session);
      StartTimer(CANCEL_TIMER, exports[k].engine, session, 0, now);
      exports[k] := exports[k].(cancelled := true);
      ok := true;
    }

    // ---- Expiry ----

    /** The session an exhausted timer stands for is closed. */
    method GiveUp(t: Timer)
      requires Valid()
      modifies exports, imports
      ensures Valid() && State() == S.GiveUp(old(State()), t)
    {
      if t.kind == CHECKPOINT_TIMER {
        CloseExport(t.session);
      } else if t.kind == REPORT_TIMER {
        var k := LookupImportByNumber(t.session);
        if k < imports.Length {
          imports[k] := imports[k].(active := false);
        }
      }
    }

    /** What an expired timer sends again: the block's tail under a new serial, the report, or the cancel segment. */
    method Resend(t: Timer)
      requires Valid()
      modifies this`sent, exports
      ensures Valid()
      ensures var f := S.Resend(old(State()), t);
              State() == f.engine && sent == old(sent) + WireAll(f.sent)
    {
      Untouched(sent, delivered);
      if t.kind == CHECKPOINT_TIMER {
        ResendTail(t);
      } else if t.kind == REPORT_TIMER {
        ResendReport(t);
      } else if t.kind == CANCEL_TIMER {
        WriteCancel(CANCEL_BY_SENDER, t.session);
      }
    }

    method ResendTail(t: Timer)
      requires Valid() && t.kind == CHECKPOINT_TIMER
      modifies this`sent, exports
      ensures var f := S.Resend(old(State()), t);
              State() == f.engine && sent == old(sent) + WireAll(f.sent)
    {
      var k := LookupExport(t.session);
      if k == exports.Length {
        Untouched(sent, delivered);
        return;
      }
      WriteTail(exports[k]);
      exports[k] := exports[k].(nextCp := exports[k].nextCp + 1);
    }

    /** The last MTU of the block as a checkpoint that ends it. */
    method WriteTail(x: Export)
      modifies this`sent
      ensures sent == old(sent) + WireAll(S.Emit(DataSegment(x, RED_DATA_EORP_CP, S.TailRange(x, config), x.nextCp)))
    {
      var mtu := x.mtu;
      if mtu == 0 { mtu := config.mtu; }
      var offset := if x.len > mtu then x.len - mtu else 0;
      var _ := WriteData(DataSegment(x, RED_DATA_EORP_CP, Claim(offset, x.len - offset), x.nextCp));
    }

    method ResendReport(t: Timer)
      requires Valid() && t.kind == REPORT_TIMER
      modifies this`sent
      ensures var f := S.Resend(old(State()), t);
              State() == f.engine && sent == old(sent) + WireAll(f.sent)
    {
      var k := LookupImportByNumber(t.session);
      if k == imports.Length {
        Untouched(sent, delivered);
        return;
      }
      var m := imports[k];
      WriteReport(ReportSeg(Header(0, REPORT, localId, m.session, 0, 0), t.serial, 0, m.len, 0, m.claims));
    }

    /** One slot of the sweep. */
    method FireSlot(i: nat, now: int) returns (fired: bool)
      requires Valid() && i < timers.Length
      modifies this`sent, exports, imports, timers
      ensures Valid()
      ensures var f := S.FireSlot(old(State()), i, now);
              State() == f.engine && sent == old(sent) + WireAll(f.sent) && f.delivered == []
      ensures fired <==> S.Expired(old(timers[i]), now)
      ensures timers[..] == old(timers[..])[i := timers[i]]
    {
      hide S.GiveUp, S.Resend, WireAll;
      ghost var e := State();
      Untouched(sent, delivered);
      var t := timers[i];
      if !t.active || t.expiry > now {
        return false;
      }
      var t1 := t.(retries := t.retries + 1);
      if t1.retries >= S.AsInt32(config.maxRetries) {
        GiveUp(t);
        timers[i] := t1.(active := false);
        LastRetryOutcome(e, i, now);
      } else {
        Resend(t);
        timers[i] := t1.(expiry := now + S.TimerDuration(config));
        RetryOutcome(e, i, now);
      }
      fired := true;
    }

    /** Every slot once, in order; slots the sweep itself changes are seen as changed. */
    method FireExpired(now: int) returns (fired: nat)
      requires Valid()
      modifies this`sent, exports, imports, timers
      ensures Valid()
      ensures var f := S.FireExpired(old(State()), now);
              State() == f.engine && sent == old(sent) + WireAll(f.sent) && f.delivered == []
      ensures fired == S.Due(old(timers[..]), 0, now)
    {
      fired := 0;
      ghost var f0 := S.FireExpired(State(), now);
      ghost var goal := sent + WireAll(f0.sent);
      for i := 0 to timers.Length
        invariant Valid()
        invariant var f := S.FireFrom(State(), i, now);
                  f.engine == f0.engine && sent + WireAll(f.sent) == goal && f.delivered == f0.delivered
        invariant timers[i..] == old(timers[i..])
        invariant fired + S.Due(old(timers[..]), i, now) == S.Due(old(timers[..]), 0, now)
      {
        assert timers[i] == timers[i..][0] == old(timers[..])[i];
        var more := FireNext(i, now);
        if more {
          fired := fired + 1;
        }
      }
      Untouched(sent, delivered);
    }

    /** Milliseconds until the next timer is due, as the event loop waits for it; -1 when none is running. */
    method NextTimeout(now: int) returns (wait: int)
      requires Valid()
      ensures S.IsTimeout(timers[..], now, wait)
    {
      wait := -1;
      for i := 0 to timers.Length
        invariant S.IsTimeout(timers[..i], now, wait)
      {
        assert timers[..i + 1] == timers[..i] + [timers[i]];
        if timers[i].active {
          var exp := timers[i].expiry;
          var sec, nsec := exp / S.SECOND - now / S.SECOND, exp % S.SECOND - now % S.SECOND;
          var ms := sec * 1000 + if nsec >= 0 then nsec / S.MS else -(-nsec / S.MS);
          if ms < 0 {
            ms := 0;
          }
          if wait < 0 || ms < wait {
            wait := ms;
          }
        }
      }
      assert timers[..timers.Length] == timers[..];
    }

    method FireNext(i: nat, now: int) returns (fired: bool)
      requires Valid() && i < timers.Length
      modifies this`sent, exports, imports, timers
      ensures Valid()
      ensures var f, g := S.FireFrom(old(State()), i, now), S.FireFrom(State(), i + 1, now);
              g.engine == f.engine && g.delivered == f.delivered && sent + WireAll(g.sent) == old(sent) + WireAll(f.sent)
      ensures fired <==> S.Expired(old(timers[i]), now)
      ensures timers[..] == old(timers[..])[i := timers[i]]
    {
      FireStep(State(), i, now, sent);
      fired := FireSlot(i, now);
    }
  }

  /** Claims a range in the session's receive map. */
  method AddToMap(m: Claims, offset: nat, length: nat) returns (claims: Claims)
    ensures claims == AddClaim(m, offset, length)
  {
    var recvMap := new RecvMap.RecvMap(m);
    recvMap.AddClaim(offset, length);
    claims := recvMap.Snapshot();
  }

  /** The copy into the session's buffer, the length an end-of-block segment teaches, and the completion test. */
  method Accepted(m: Import, kind: nat, offset: nat, payload: seq<byte>, claims: Claims) returns (r: Import)
    requires offset + |payload| <= MAX_BLOCK_SIZE && claims == AddClaim(m.claims, offset, |payload|)
    ensures r == S.Accept(m, kind, offset, payload)
  {
    var end := offset + |payload|;
    var len := if kind == RED_DATA_EORP_CP then end else m.len;
    var full := len > 0 && |claims| == 1 && claims[0].offset == 0 && claims[0].length >= len;
    var data := Spliced(m.data, offset, payload);
    r := m.(data := data, claims := claims, len := len, complete := m.complete || full);
  }

  method Spliced(data: Buffer, offset: nat, payload: seq<byte>) returns (r: Buffer)
    requires offset + |payload| <= MAX_BLOCK_SIZE
    ensures r == data[..offset] + payload + data[offset + |payload|..]
  {
    r := data[..offset] + payload + data[offset + |payload|..];
  }

  lemma DataIsData(h: Header, body: seq<byte>)
    requires DecodeData(h, body).Some?
    ensures DecodeData(h, body).value.DataSeg?
  {
  }

  lemma ReportIsReport(h: Header, body: seq<byte>)
    requires DecodeReport(h, body).Some?
    ensures DecodeReport(h, body).value.ReportSeg? && |DecodeReport(h, body).value.claims| <= MAX_CLAIMS
  {
    var p := Fields(body, 5).value;
    FieldsCount(body, 5);
    FieldsCount(p.rest, 2 * p.fields[4]);
  }

  lemma DispatchData(e: Engine, h: Header, body: seq<byte>, s: Segment, now: int)
    requires h.kind <= RED_DATA_EORP_CP && DecodeData(h, body) == Some(s) && s.DataSeg?
    ensures S.ProcessBody(e, h, body, now) == S.HandleData(e, s, now)
  {
  }

  lemma DispatchReport(e: Engine, h: Header, body: seq<byte>, s: Segment, now: int)
    requires h.kind == REPORT && DecodeReport(h, body) == Some(s) && s.ReportSeg?
    ensures S.ProcessBody(e, h, body, now) == S.HandleReport(e, s, now)
    ensures S.HandleReport(e, s, now).delivered == []
  {
  }

  lemma DispatchCancel(e: Engine, h: Header, body: seq<byte>, now: int)
    requires CANCEL_BY_SENDER <= h.kind <= CANCEL_ACK_RECVR
    requires (h.kind == CANCEL_BY_SENDER || h.kind == CANCEL_BY_RECVR) ==> DecodeCancel(h, body).Some?
    ensures S.ProcessBody(e, h, body, now) == S.HandleCancel(e, h) && S.HandleCancel(e, h).delivered == []
  {
  }

  lemma LastRetryOutcome(e: Engine, i: nat, now: int)
    requires i < |e.timers| && S.Expired(e.timers[i], now) && e.timers[i].retries + 1 >= S.AsInt32(e.config.maxRetries)
    ensures var t, f := e.timers[i], S.FireSlot(e, i, now);
            var e1 := S.GiveUp(e, t);
            && e1.timers == e.timers && f.sent == [] && f.delivered == []
            && f.engine == e1.(timers := e.timers[i := t.(retries := t.retries + 1, active := false)])
  {
  }

  lemma RetryOutcome(e: Engine, i: nat, now: int)
    requires i < |e.timers| && S.Expired(e.timers[i], now) && e.timers[i].retries + 1 < S.AsInt32(e.config.maxRetries)
    ensures var t, f, g := e.timers[i], S.FireSlot(e, i, now), S.Resend(e, e.timers[i]);
            && g.engine.timers == e.timers && f.sent == g.sent && f.delivered == []
            && f.engine == g.engine.(timers := e.timers[i := t.(retries := t.retries + 1,
                                                                expiry := now + S.TimerDuration(e.config))])
  {
  }

  lemma FireStep(e: Engine, i: nat, now: int, sent: seq<seq<byte>>)
    requires i < |e.timers|
    ensures var f, g := S.FireSlot(e, i, now), S.FireFrom(e, i, now);
            var h := S.FireFrom(f.engine, i + 1, now);
            && g.engine == h.engine && g.delivered == f.delivered + h.delivered
            && sent + WireAll(g.sent) == sent + WireAll(f.sent) + WireAll(h.sent)
  {
    var f := S.FireSlot(e, i, now);
    var h := S.FireFrom(f.engine, i + 1, now);
    WireAllAppend(f.sent, h.sent);
    Assoc(sent, WireAll(f.sent), WireAll(h.sent));
  }

  lemma NothingWritten(sent: seq<seq<byte>>)
    ensures sent + WireAll([]) == sent
  {
  }

  lemma Untouched(sent: seq<seq<byte>>, delivered: seq<Delivery>)
    ensures sent + WireAll([]) == sent && delivered + [] == delivered
  {
  }

  lemma DataOutcome(e: Engine, s: Segment, now: int, k: nat, imports: seq<Import>, timers: seq<Timer>)
    requires s.DataSeg? && k == S.ImportSlot(e, s.hdr) && k < |e.imports| && s.offset + |s.payload| <= MAX_BLOCK_SIZE
    requires var m := S.Accept(S.ImportAt(e, s.hdr), s.hdr.kind, s.offset, s.payload);
             imports == e.imports[k := S.Settle(m, s.hdr.kind)] && timers == S.ArmReport(e, m, s.hdr.kind, now)
    ensures var f := S.HandleData(e, s, now);
            var m := S.Accept(S.ImportAt(e, s.hdr), s.hdr.kind, s.offset, s.payload);
            && f.engine == e.(imports := imports, timers := timers)
            && f.sent == S.ReportFor(e, m, s) && f.delivered == S.DeliveryOf(m)
  {
  }

  /** The segments of a block from an offset on. */
  ghost function CellsFrom(x: Export, offset: nat): seq<Segment>
    requires x.mtu > 0
  {
    Segments(x, Pieces(offset, x.len, x.mtu), RED_DATA_EORP_CP, 1)
  }

  lemma NoCells(x: Export, offset: nat, sent: seq<seq<byte>>)
    requires x.mtu > 0 && offset >= x.len
    ensures AllSent(CellsFrom(x, offset)) && sent + WireAll(S.EmitUntilStuck(CellsFrom(x, offset))) == sent
  {
    assert CellsFrom(x, offset) == [];
  }

  lemma SendOutcome(e: Engine, remote: nat, block: seq<byte>, now: int, ss: seq<Segment>)
    requires ConfigOk(e.config) && e.nextSession > 0 && S.CanSend(e, block) && ss == S.BlockSegments(e, remote, block)
    ensures var f := S.SendBlock(e, remote, block, now);
            var e1 := S.AfterOpen(e, remote, block);
            && f.sent == S.EmitUntilStuck(ss) && f.engine == if AllSent(ss) then S.ArmNewest(e1, now) else e1
  {
  }

  lemma AcknowledgedOutcome(e: Engine, s: Segment, now: int, k: nat, ack: Segment)
    requires s.ReportSeg? && k == FindOwnExport(e.exports, e.localId, s.hdr.session) && k < |e.exports|
    requires ack == S.AckOf(e, s) && S.Full(s.claims, e.exports[k].len)
    ensures var f := S.HandleReport(e, s, now);
            && f.engine == e.(exports := e.exports[k := e.exports[k].(completed := true)],
                              timers := S.CancelTimer(e.timers, CHECKPOINT_TIMER, s.hdr.session, s.cpSerial))
            && f.sent == S.Emit(ack)
  {
  }

  lemma RepeatOutcome(e: Engine, s: Segment, now: int, k: nat, ack: Segment, ps: seq<Claim>, sent: seq<seq<byte>>)
    requires s.ReportSeg? && k == FindOwnExport(e.exports, e.localId, s.hdr.session) && k < |e.exports|
    requires ack == S.AckOf(e, s) && !S.Full(s.claims, e.exports[k].len)
    requires ps == Missing(e.exports[k], e.config, s.claims, s.lower, s.upper)
    ensures var f := S.HandleReport(e, s, now);
            var x := e.exports[k];
            && f.engine == e.(exports := e.exports[k := S.AfterResend(x, ps)],
                              timers := S.ArmResent(S.CancelTimer(e.timers, CHECKPOINT_TIMER, s.hdr.session, s.cpSerial),
                                                    e.config, S.AfterResend(x, ps), now))
            && sent + WireAll(f.sent) == sent + WireAll(S.Emit(ack)) + Resent(x, ps)
  {
    var x := e.exports[k];
    var again := S.EmitAll(Segments(x, ps, RED_DATA_CP, x.nextCp));
    WireAllAppend(S.Emit(ack), again);
    Assoc(sent, WireAll(S.Emit(ack)), WireAll(again));
  }

  lemma NothingLeft(x: Export, sent: seq<seq<byte>>)
    ensures sent + Resent(x, []) == sent
  {
    assert Segments(x, [], RED_DATA_CP, x.nextCp) == [];
  }

  /** The sweep that collects the gaps between claims; the table of seventeen never overflows. */
  method CollectGaps(claims: seq<Claim>, lower: nat, upper: nat) returns (gaps: seq<Claim>)
    requires |claims| <= MAX_CLAIMS
    ensures gaps == Gaps(claims, lower, upper)
  {
    var missing := new Claim[MAX_CLAIMS + 1];
    var count: nat, cursor: nat := 0, lower;
    ghost var goal := Gaps(claims, lower, upper);
    assert claims[0..] == claims && missing[..0] + goal == goal;
    for i := 0 to |claims|
      invariant count <= i
      invariant missing[..count] + Gaps(claims[i..], cursor, upper) == goal
    {
      GapStep(missing[..count], claims, i, cursor, upper);
      count := NoteGap(missing, count, cursor, claims[i].offset);
      if claims[i].End() > cursor {
        cursor := claims[i].End();
      }
    }
    assert claims[|claims|..] == [];
    count := NoteGap(missing, count, cursor, upper);
    gaps := missing[..count];
  }

  /** Appends the range from start to end to the table when it is not empty. */
  method NoteGap(missing: array<Claim>, count: nat, start: nat, end: nat) returns (next: nat)
    requires count < missing.Length == MAX_CLAIMS + 1
    modifies missing
    ensures next <= count + 1 && missing[..next] == old(missing[..count]) + Between(start, end)
  {
    next := count;
    if end > start && count < MAX_CLAIMS + 1 {
      missing[count] := Claim(start, end - start);
      next := count + 1;
    }
  }

  function Between(start: nat, end: nat): seq<Claim> {
    if end > start then [Claim(start, end - start)] else []
  }

  lemma GapStep(found: seq<Claim>, claims: seq<Claim>, i: nat, cursor: nat, upper: nat)
    requires i < |claims|
    ensures var c := claims[i];
            found + Gaps(claims[i..], cursor, upper)
            == found + Between(cursor, c.offset)
               + Gaps(claims[i + 1..], if c.End() > cursor then c.End() else cursor, upper)
  {
    var c := claims[i];
    assert claims[i..][1..] == claims[i + 1..];
    Assoc(found, Between(cursor, c.offset), Gaps(claims[i + 1..], if c.End() > cursor then c.End() else cursor, upper));
  }

  lemma {:induction false} PiecesCount(start: nat, end: nat, mtu: nat)
    requires mtu > 0 && start <= end
    ensures |Pieces(start, end, mtu)| == (end - start + mtu - 1) / mtu
    decreases end - start
  {
    if start < end {
      var chunk := if end - start > mtu then mtu else end - start;
      PiecesCount(start + chunk, end, mtu);
      CeilStep(end - start, mtu);
    } else {
      CeilNone(mtu);
    }
  }

  /** The count made beforehand, by rounding up each gap, is the number of segments written. */
  method CountPieces(gaps: seq<Claim>, mtu: nat) returns (total: nat)
    requires mtu > 0
    ensures total == |AllPieces(gaps, mtu)|
  {
    total := 0;
    assert gaps[0..] == gaps;
    for m := 0 to |gaps|
      invariant total + |AllPieces(gaps[m..], mtu)| == |AllPieces(gaps, mtu)|
    {
      assert gaps[m..][1..] == gaps[m + 1..];
      PiecesCount(gaps[m].offset, gaps[m].End(), mtu);
      total := total + (gaps[m].length + mtu - 1) / mtu;
    }
  }

  lemma SegmentsCons(x: Export, c: Claim, next: seq<Claim>, kind: nat, serial: nat)
    ensures Segments(x, [c] + next, kind, serial)
         == [DataSegment(x, if next == [] then kind else RED_DATA, c, if next == [] then serial else 0)]
            + Segments(x, next, kind, serial)
  {
    assert ([c] + next)[1..] == next;
    assert Segments(x, [], kind, serial) == [];
  }

  /** What a run of retransmitted pieces puts on the link. */
  ghost function Resent(x: Export, ps: seq<Claim>): seq<seq<byte>> {
    WireAll(S.EmitAll(Segments(x, ps, RED_DATA_CP, x.nextCp)))
  }

  lemma PieceStep(off: nat, chunk: nat, end: nat, mtu: nat, after: seq<Claim>, rest: seq<Claim>, left: seq<Claim>)
    requires mtu > 0 && off < end && chunk == if end - off > mtu then mtu else end - off
    requires rest == Pieces(off, end, mtu) + after && left == Pieces(off + chunk, end, mtu) + after
    ensures rest == [Claim(off, chunk)] + left
  {
  }

  lemma ResentStep(x: Export, r: Claim, rest: seq<Claim>, left: seq<Claim>, s: Segment, sent: seq<seq<byte>>)
    requires rest == [r] + left
    requires s == if left == [] then DataSegment(x, RED_DATA_CP, r, x.nextCp) else DataSegment(x, RED_DATA, r, 0)
    ensures sent + Resent(x, rest) == sent + WireAll(S.Emit(s)) + Resent(x, left)
  {
    SegmentsCons(x, r, left, RED_DATA_CP, x.nextCp);
    EmitStep(sent, s, Segments(x, left, RED_DATA_CP, x.nextCp));
  }

  lemma CellStep(x: Export, offset: nat, chunk: nat, s: Segment)
    requires x.mtu > 0 && offset < x.len && chunk == if x.len - offset > x.mtu then x.mtu else x.len - offset
    requires s == if offset + chunk >= x.len then DataSegment(x, RED_DATA_EORP_CP, Claim(offset, chunk), 1)
                  else DataSegment(x, RED_DATA, Claim(offset, chunk), 0)
    ensures CellsFrom(x, offset) == [s] + CellsFrom(x, offset + chunk)
  {
    SegmentsCons(x, Claim(offset, chunk), Pieces(offset + chunk, x.len, x.mtu), RED_DATA_EORP_CP, 1);
  }

  ghost predicate AllSent(ss: seq<Segment>) {
    |S.EmitUntilStuck(ss)| == |ss|
  }

  lemma WireCons(s: Segment, rest: seq<Segment>)
    ensures WireAll([s] + rest) == [Wire(s)] + WireAll(rest)
  {
    assert ([s] + rest)[1..] == rest;
  }

  /** Writing one segment of a first transmission leaves the rest still to be written. */
  lemma StuckStep(sent: seq<seq<byte>>, s: Segment, rest: seq<Segment>)
    ensures AllSent([s] + rest) <==> Fits(s, SEGMENT_BUF) && AllSent(rest)
    ensures sent + WireAll(S.EmitUntilStuck([s] + rest))
         == if Fits(s, SEGMENT_BUF) then sent + [Wire(s)] + WireAll(S.EmitUntilStuck(rest)) else sent
    ensures WireAll(S.Emit(s)) == if Fits(s, SEGMENT_BUF) then [Wire(s)] else []
  {
    assert ([s] + rest)[1..] == rest;
    OneWire(s);
    if Fits(s, SEGMENT_BUF) {
      WireCons(s, S.EmitUntilStuck(rest));
      Assoc(sent, [Wire(s)], WireAll(S.EmitUntilStuck(rest)));
    } else {
      assert sent + [] == sent;
    }
  }

  lemma EmitStep(sent: seq<seq<byte>>, s: Segment, rest: seq<Segment>)
    ensures sent + WireAll(S.EmitAll([s] + rest)) == sent + WireAll(S.Emit(s)) + WireAll(S.EmitAll(rest))
  {
    assert ([s] + rest)[1..] == rest;
    WireAllAppend(S.Emit(s), S.EmitAll(rest));
    Assoc(sent, WireAll(S.Emit(s)), WireAll(S.EmitAll(rest)));
  }

  lemma OneWire(s: Segment)
    ensures WireAll(S.Emit(s)) == if Fits(s, SEGMENT_BUF) then [Wire(s)] else []
    ensures |Wire(s)| > 0
  {
    assert WireAll([s]) == [Wire(s)] + WireAll([]);
  }
}
