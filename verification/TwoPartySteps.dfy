/** The remaining steps of an engine keep the two-party invariant: reports, timers, sending, cancelling. */
module TwoPartySteps {
  import opened Bytes
  import opened ClaimMap
  import opened ClaimRoom
  import opened LtpSegment
  import opened LtpState
  import opened LtpSegmentation
  import opened LtpSteps
  import opened TwoPartyInvariant

  // ---- Slices of the block ----

  /** A data segment cut from an export session's buffer carries the block's own bytes. */
  lemma SliceOk(b: seq<byte>, x: Export, r: Claim)
    requires x.len == |b| && x.Block() == b && r.End() <= |b|
    ensures Slice(x.data, r.offset, r.length) == b[r.offset..r.End()]
  {
    assert x.data[..x.len][r.offset..r.End()] == x.data[r.offset..r.End()];
  }

  ghost predicate PieceOk(b: seq<byte>, mtu: nat, kind: nat, r: Claim)
    requires mtu > 0
  {
    && r.length > 0 && r.End() <= |b|
    && (kind == RED_DATA_EORP_CP ==> r.End() == |b|)
    && (Roomy(|b|, mtu) ==>
          OnGrid(r.offset, |b|, mtu) && OnGrid(r.End(), |b|, mtu) && (r.End() == |b| ==> kind == RED_DATA_EORP_CP))
  }

  lemma SegmentOk(v: View, x: Export, kind: nat, r: Claim, serial: nat)
    requires ViewOk(v) && x.session in v.blocks && x.engine == v.id
    requires x.len == |v.blocks[x.session]| && x.Block() == v.blocks[x.session]
    requires kind <= RED_DATA_EORP_CP && PieceOk(v.blocks[x.session], v.mtu, kind, r)
    requires IsCheckpoint(kind) || serial == 0
    ensures var s := DataSegment(x, kind, r, serial); WellFormed(s) && DataOk(v, s)
  {
    SliceOk(v.blocks[x.session], x, r);
  }

  /** Only data segments, each a good one. */
  ghost predicate DataSentOk(v: View, sent: seq<Segment>)
    requires ViewOk(v)
  {
    forall s :: s in sent ==> s.DataSeg? && WellFormed(s) && DataOk(v, s)
  }

  lemma SegmentsOk(v: View, x: Export, ps: seq<Claim>, lastKind: nat, serial: nat)
    requires ViewOk(v) && x.session in v.blocks && x.engine == v.id
    requires x.len == |v.blocks[x.session]| && x.Block() == v.blocks[x.session]
    requires lastKind == RED_DATA_CP || lastKind == RED_DATA_EORP_CP
    requires forall i :: 0 <= i < |ps| ==>
               PieceOk(v.blocks[x.session], v.mtu, if i == |ps| - 1 then lastKind else RED_DATA, ps[i])
    ensures DataSentOk(v, Segments(x, ps, lastKind, serial))
  {
    var ss := Segments(x, ps, lastKind, serial);
    forall s | s in ss ensures s.DataSeg? && WellFormed(s) && DataOk(v, s) {
      var i :| 0 <= i < |ss| && ss[i] == s;
      if i == |ps| - 1 {
        SegmentOk(v, x, lastKind, ps[i], serial);
      } else {
        SegmentOk(v, x, RED_DATA, ps[i], 0);
      }
    }
  }

  lemma {:induction false} EmitAllSubset(ss: seq<Segment>)
    ensures forall s :: s in EmitAll(ss) ==> s in ss
  {
    if ss != [] {
      EmitAllSubset(ss[1..]);
    }
  }

  lemma {:induction false} EmitUntilStuckPrefix(ss: seq<Segment>)
    ensures EmitUntilStuck(ss) == ss[..|EmitUntilStuck(ss)|]
  {
    if ss != [] && Fits(ss[0], SEGMENT_BUF) {
      EmitUntilStuckPrefix(ss[1..]);
    }
  }

  lemma DataSentIsSent(v: View, w: View, held: set<nat>, log: seq<Delivery>, sent: seq<Segment>)
    requires ViewOk(v) && ViewOk(w) && DataSentOk(v, sent)
    ensures SentOk(v, w, held, log, sent)
  {
  }

  // ---- A report ----

  lemma {:induction false} ReachAttained(claims: seq<Claim>, cursor: nat, upper: nat)
    ensures var r := Reach(claims, cursor, upper);
            r == cursor || r == upper || exists i :: 0 <= i < |claims| && claims[i].End() == r
  {
    if claims != [] {
      var next := if claims[0].End() > cursor then claims[0].End() else cursor;
      ReachAttained(claims[1..], next, upper);
      var r := Reach(claims[1..], next, upper);
      if r == claims[0].End() {
        assert claims[0].End() == r;
      } else if exists i :: 0 <= i < |claims[1..]| && claims[1..][i].End() == r {
        var i :| 0 <= i < |claims[1..]| && claims[1..][i].End() == r;
        assert claims[i + 1].End() == r;
      }
    }
  }

  /** What a good report makes the sender repeat lies inside the block; for a roomy block it stops short of the end. */
  lemma MissingPieces(b: seq<byte>, mtu: nat, x: Export, config: Config, claims: seq<Claim>, upper: nat, i: nat)
    requires mtu > 0 && x.len == |b| && x.mtu == mtu && ClaimsOk(b, mtu, claims, upper) && |claims| <= MAX_CLAIMS
    requires i < |Missing(x, config, claims, 0, upper)|
    ensures PieceOk(b, mtu, RED_DATA_CP, Missing(x, config, claims, 0, upper)[i])
  {
    var ps := Missing(x, config, claims, 0, upper);
    MissingExact(x, config, claims, 0, upper);
    ReachAttained(claims, 0, upper);
    assert Reach(claims, 0, upper) <= |b|;
    if Roomy(|b|, mtu) {
      MissingOnGrid(b, mtu, x, config, claims, upper);
      assert Grid(|b|, mtu)(ps[i].offset) && Grid(|b|, mtu)(ps[i].End());
      if ps[i].End() == |b| {
        assert Covers(ps, |b| - 1);
        MissingShort(b, mtu, claims, upper);
        assert false;
      }
    }
  }

  lemma MissingOnGrid(b: seq<byte>, mtu: nat, x: Export, config: Config, claims: seq<Claim>, upper: nat)
    requires mtu > 0 && x.len == |b| && x.mtu == mtu && ClaimsOk(b, mtu, claims, upper) && |claims| <= MAX_CLAIMS
    requires Roomy(|b|, mtu) && Reach(claims, 0, upper) <= |b|
    ensures ClaimsAt(Missing(x, config, claims, 0, upper), Grid(|b|, mtu))
  {
    var g := Grid(|b|, mtu);
    assert g(0);
    GapsAt(claims, 0, upper, g);
    GapsAscend(claims, 0, upper);
    AllPiecesAt(Gaps(claims, 0, upper), |b|, mtu);
  }

  /** A good report on a roomy block either says the last byte arrived or does not ask about it. */
  lemma MissingShort(b: seq<byte>, mtu: nat, claims: seq<Claim>, upper: nat)
    requires mtu > 0 && ClaimsOk(b, mtu, claims, upper) && Roomy(|b|, mtu)
    ensures Covers(claims, |b| - 1) || Reach(claims, 0, upper) < |b|
  {
    ReachAttained(claims, 0, upper);
    var r := Reach(claims, 0, upper);
    if exists i :: 0 <= i < |claims| && claims[i].End() == r {
      var i :| 0 <= i < |claims| && claims[i].End() == r;
      assert r == |b| ==> claims[i].offset <= |b| - 1 < claims[i].End();
    }
  }

  lemma AckOk(v: View, w: View, held: set<nat>, log: seq<Delivery>, s: Segment)
    requires ViewOk(v) && ViewOk(w) && s.AckSeg? && WellFormed(s)
    ensures SentOk(v, w, held, log, Emit(s))
  {
  }

  lemma SentAppend(v: View, w: View, held: set<nat>, log: seq<Delivery>, a: seq<Segment>, b: seq<Segment>)
    requires ViewOk(v) && ViewOk(w) && SentOk(v, w, held, log, a) && SentOk(v, w, held, log, b)
    ensures SentOk(v, w, held, log, a + b)
  {
  }

  lemma ReportStep(v: View, w: View, held: set<nat>, log: seq<Delivery>, pheld: set<nat>, plog: seq<Delivery>,
                   e: Engine, s: Segment, now: int)
    requires ViewOk(v) && ViewOk(w) && ExportsOk(v, pheld, plog, e.exports) && ImportsOk(w, held, e.imports)
    requires e.localId == v.id && s.ReportSeg? && WellFormed(s) && ReportOk(v, pheld, plog, s)
    ensures EffectOk(v, w, held, log, pheld, plog, e, HandleReport(e, s, now))
  {
    var k := FindOwnExport(e.exports, e.localId, s.hdr.session);
    if k < |e.exports| {
      var x := e.exports[k];
      assert ExportOk(v, pheld, plog, x);
      var b := v.blocks[x.session];
      var ack := AckSeg(Header(0, REPORT_ACK, e.localId, s.hdr.session, 0, 0), s.rptSerial);
      AckOk(v, w, held, log, ack);
      if !Full(s.claims, x.len) {
        RetransmitOk(v, w, held, log, e, x, s);
        SentAppend(v, w, held, log, Emit(ack),
                   EmitAll(Segments(x, Missing(x, e.config, s.claims, s.lower, s.upper), RED_DATA_CP, x.nextCp)));
        var ps := Missing(x, e.config, s.claims, s.lower, s.upper);
        ExportUpdate(v, pheld, plog, e.exports, k, if ps == [] then x else x.(nextCp := x.nextCp + 1));
      } else {
        ExportUpdate(v, pheld, plog, e.exports, k, x.(completed := true));
      }
    }
  }

  lemma ExportUpdate(v: View, held: set<nat>, log: seq<Delivery>, exports: seq<Export>, k: nat, x: Export)
    requires ViewOk(v) && k < |exports| && ExportsOk(v, held, log, exports) && ExportOk(v, held, log, x)
    ensures ExportsOk(v, held, log, exports[k := x])
  {
  }

  lemma RetransmitOk(v: View, w: View, held: set<nat>, log: seq<Delivery>, e: Engine, x: Export, s: Segment)
    requires ViewOk(v) && ViewOk(w) && x.engine == v.id && x.session in v.blocks && x.mtu == v.mtu
    requires x.len == |v.blocks[x.session]| && x.Block() == v.blocks[x.session]
    requires s.ReportSeg? && WellFormed(s) && s.lower == 0 && ClaimsOk(v.blocks[x.session], v.mtu, s.claims, s.upper)
    ensures SentOk(v, w, held, log,
                   EmitAll(Segments(x, Missing(x, e.config, s.claims, s.lower, s.upper), RED_DATA_CP, x.nextCp)))
  {
    var ps := Missing(x, e.config, s.claims, s.lower, s.upper);
    forall i | 0 <= i < |ps|
      ensures PieceOk(v.blocks[x.session], v.mtu, if i == |ps| - 1 then RED_DATA_CP else RED_DATA, ps[i])
    {
      MissingPieces(v.blocks[x.session], v.mtu, x, e.config, s.claims, s.upper, i);
    }
    SegmentsOk(v, x, ps, RED_DATA_CP, x.nextCp);
    EmitAllSubset(Segments(x, ps, RED_DATA_CP, x.nextCp));
    DataSentIsSent(v, w, held, log, EmitAll(Segments(x, ps, RED_DATA_CP, x.nextCp)));
  }

  // ---- Acknowledgements and cancellation ----

  lemma CancelStep(v: View, w: View, held: set<nat>, log: seq<Delivery>, pheld: set<nat>, plog: seq<Delivery>,
                   e: Engine, h: Header)
    requires ViewOk(v) && ViewOk(w) && ExportsOk(v, pheld, plog, e.exports) && ImportsOk(w, held, e.imports)
    ensures EffectOk(v, w, held, log, pheld, plog, e, HandleCancel(e, h))
  {
    hide ExportOk, ImportOk, Fits;
    CloseImportOk(w, held, e, h.engine, h.session);
    CloseExportOk(v, pheld, plog, e, h.session);
  }

  lemma CloseImportOk(w: View, held: set<nat>, e: Engine, engine: nat, session: nat)
    requires ViewOk(w) && ImportsOk(w, held, e.imports)
    ensures ImportsOk(w, held, CloseImport(e, engine, session).imports)
  {
  }

  lemma CloseExportOk(v: View, held: set<nat>, log: seq<Delivery>, e: Engine, session: nat)
    requires ViewOk(v) && ExportsOk(v, held, log, e.exports)
    ensures ExportsOk(v, held, log, CloseExport(e, session).exports)
  {
  }

  /** Everything a party can receive from its peer. */
  lemma HandleStep(v: View, w: View, held: set<nat>, held': set<nat>, log: seq<Delivery>, pheld: set<nat>,
                   plog: seq<Delivery>, e: Engine, s: Segment, now: int)
    requires ViewOk(v) && ViewOk(w) && ExportsOk(v, pheld, plog, e.exports) && ImportsOk(w, held, e.imports)
    requires e.localId == v.id && WellFormed(s) && DataOk(w, s) && ReportOk(v, pheld, plog, s) && held <= held'
    requires var f := Handle(e, s, now);
             HeldClosed(w, f.engine.imports, held') && forall d :: d in f.delivered ==> d in log
    ensures EffectOk(v, w, held', log, pheld, plog, e, Handle(e, s, now))
  {
    ImportsMonotone(w, held, held', e.imports);
    match s
    case DataSeg(_, _, _, _, _, _) => DataStep(v, w, held, held', log, pheld, plog, e, s, now);
    case ReportSeg(_, _, _, _, _, _) => ReportStep(v, w, held', log, pheld, plog, e, s, now);
    case AckSeg(_, _) =>
    case CancelSeg(h, _) => CancelStep(v, w, held', log, pheld, plog, e, h);
  }

  // ---- Timers ----

  lemma ResendOk(v: View, w: View, held: set<nat>, log: seq<Delivery>, pheld: set<nat>, plog: seq<Delivery>,
                 e: Engine, t: Timer)
    requires ViewOk(v) && ViewOk(w) && ExportsOk(v, pheld, plog, e.exports) && ImportsOk(w, held, e.imports)
    ensures EffectOk(v, w, held, log, pheld, plog, e, Resend(e, t))
  {
    if t.kind == CHECKPOINT_TIMER {
      var k := FindExport(e.exports, t.session);
      if k < |e.exports| {
        var x := e.exports[k];
        assert ExportOk(v, pheld, plog, x);
        TailPiece(v.blocks[x.session], v.mtu, x, e.config);
        SegmentOk(v, x, RED_DATA_EORP_CP, TailRange(x, e.config), x.nextCp);
        ExportUpdate(v, pheld, plog, e.exports, k, x.(nextCp := x.nextCp + 1));
      }
    } else if t.kind == REPORT_TIMER {
      var k := FindImportByNumber(e.imports, t.session);
      if k < |e.imports| {
        var m := e.imports[k];
        assert ImportOk(w, held, m);
        TimedReportOk(w.blocks[m.session], w.mtu, m);
      }
    }
  }

  lemma TailPiece(b: seq<byte>, mtu: nat, x: Export, config: Config)
    requires mtu > 0 && x.mtu == mtu && x.len == |b| > 0
    ensures PieceOk(b, mtu, RED_DATA_EORP_CP, TailRange(x, config))
  {
  }

  lemma TimedReportOk(b: seq<byte>, mtu: nat, m: Import)
    requires mtu > 0 && SlotOk(b, mtu, m.data, m.claims, m.len)
    ensures ClaimsOk(b, mtu, m.claims, m.len)
  {
  }

  lemma FireSlotOk(v: View, w: View, held: set<nat>, log: seq<Delivery>, pheld: set<nat>, plog: seq<Delivery>,
                   e: Engine, i: nat, now: int)
    requires ViewOk(v) && ViewOk(w) && ExportsOk(v, pheld, plog, e.exports) && ImportsOk(w, held, e.imports)
    requires i < |e.timers|
    ensures EffectOk(v, w, held, log, pheld, plog, e, FireSlot(e, i, now))
    ensures |FireSlot(e, i, now).engine.timers| == |e.timers|
  {
    var t := e.timers[i];
    GiveUpOk(v, w, held, pheld, plog, e, t);
    ResendOk(v, w, held, log, pheld, plog, e, t);
  }

  lemma GiveUpOk(v: View, w: View, held: set<nat>, pheld: set<nat>, plog: seq<Delivery>, e: Engine, t: Timer)
    requires ViewOk(v) && ViewOk(w) && ExportsOk(v, pheld, plog, e.exports) && ImportsOk(w, held, e.imports)
    ensures var g := GiveUp(e, t);
            && ExportsOk(v, pheld, plog, g.exports) && ImportsOk(w, held, g.imports)
            && g == e.(exports := g.exports, imports := g.imports)
  {
    CloseExportOk(v, pheld, plog, e, t.session);
  }

  lemma {:induction false} FireFromOk(v: View, w: View, held: set<nat>, log: seq<Delivery>, pheld: set<nat>,
                                      plog: seq<Delivery>, e: Engine, i: nat, now: int)
    requires ViewOk(v) && ViewOk(w) && ExportsOk(v, pheld, plog, e.exports) && ImportsOk(w, held, e.imports)
    ensures EffectOk(v, w, held, log, pheld, plog, e, FireFrom(e, i, now))
    decreases |e.timers| - i
  {
    if i < |e.timers| {
      var f := FireSlot(e, i, now);
      FireSlotOk(v, w, held, log, pheld, plog, e, i, now);
      FireFromOk(v, w, held, log, pheld, plog, f.engine, i + 1, now);
      SentAppend(v, w, held, log, f.sent, FireFrom(f.engine, i + 1, now).sent);
    }
  }
}
