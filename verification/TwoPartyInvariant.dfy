/** What every reachable state of the two-party system satisfies, and why every step keeps it. */
module TwoPartyInvariant {
  import opened Bytes
  import opened ClaimMap
  import opened ClaimRoom
  import opened LtpSegment
  import opened LtpState
  import opened LtpSteps
  import opened TwoParty

  /** What the receiving side may rely on about the sending side. */
  datatype View = View(id: nat, mtu: nat, blocks: map<nat, seq<byte>>)

  function Self(p: Party): View {
    View(p.engine.localId, p.engine.config.mtu, p.blocks)
  }

  ghost predicate ViewOk(v: View) {
    v.mtu > 0 && forall n :: n in v.blocks ==> 0 < |v.blocks[n]| <= MAX_BLOCK_SIZE
  }

  // ---- Segments on the wire ----

  /** A range of the block, with its bytes; only the end-of-red-part segment of a roomy block reaches the block's end. */
  ghost predicate RangeOk(b: seq<byte>, mtu: nat, kind: nat, offset: nat, payload: seq<byte>)
    requires mtu > 0
  {
    && payload != [] && offset + |payload| <= |b| && payload == b[offset..offset + |payload|]
    && (kind == RED_DATA_EORP_CP ==> offset + |payload| == |b|)
    && (Roomy(|b|, mtu) ==>
          && OnGrid(offset, |b|, mtu) && OnGrid(offset + |payload|, |b|, mtu)
          && (offset + |payload| == |b| ==> kind == RED_DATA_EORP_CP))
  }

  ghost predicate DataOk(v: View, s: Segment)
    requires ViewOk(v)
  {
    s.DataSeg? ==>
      && s.hdr.kind <= RED_DATA_EORP_CP && s.hdr.engine == v.id && s.hdr.session in v.blocks
      && RangeOk(v.blocks[s.hdr.session], v.mtu, s.hdr.kind, s.offset, s.payload)
  }

  ghost predicate ClaimsOk(b: seq<byte>, mtu: nat, claims: seq<Claim>, upper: nat)
    requires mtu > 0
  {
    && b != [] && Separated(claims) && EndBy(claims, |b|) && upper <= |b|
    && (Roomy(|b|, mtu) ==>
          && ClaimsAt(claims, Grid(|b|, mtu)) && (upper > 0 ==> OnGrid(upper, |b|, mtu))
          && (upper == |b| ==> Covers(claims, |b| - 1)))
  }

  ghost predicate ReportOk(v: View, held: set<nat>, log: seq<Delivery>, s: Segment)
    requires ViewOk(v)
  {
    s.ReportSeg? ==>
      && s.hdr.session in v.blocks && s.lower == 0
      && var b := v.blocks[s.hdr.session];
         && ClaimsOk(b, v.mtu, s.claims, s.upper)
         && (Full(s.claims, |b|) ==> Acknowledged(v, held, log, s.hdr.session))
  }

  /** The peer has held the whole block and, when it is roomy, has delivered it. */
  ghost predicate Acknowledged(v: View, held: set<nat>, log: seq<Delivery>, n: nat)
    requires ViewOk(v) && n in v.blocks
  {
    n in held && (Roomy(|v.blocks[n]|, v.mtu) ==> Delivery(v.id, n, v.blocks[n]) in log)
  }

  ghost predicate SentOk(v: View, w: View, held: set<nat>, log: seq<Delivery>, sent: seq<Segment>)
    requires ViewOk(v) && ViewOk(w)
  {
    forall s :: s in sent ==> WellFormed(s) && DataOk(v, s) && ReportOk(w, held, log, s)
  }

  // ---- Sessions ----

  ghost predicate SlotOk(b: seq<byte>, mtu: nat, data: Buffer, claims: Claims, len: nat)
    requires mtu > 0
  {
    && 0 < |b| <= MAX_BLOCK_SIZE && EndBy(claims, |b|) && (len == 0 || len == |b|)
    && (forall x: nat :: Covers(claims, x) ==> x < |b| && data[x] == b[x])
    && (Roomy(|b|, mtu) ==> ClaimsAt(claims, Grid(|b|, mtu)) && (Covers(claims, |b| - 1) <==> len == |b|))
  }

  ghost predicate ImportOk(v: View, held: set<nat>, m: Import)
    requires ViewOk(v)
  {
    m.active ==>
      && m.engine == v.id && m.session in v.blocks && !m.complete && !m.delivered
      && (m.len > 0 ==> !Full(m.claims, m.len))
      && SlotOk(v.blocks[m.session], v.mtu, m.data, m.claims, m.len)
      && (Full(m.claims, |v.blocks[m.session]|) ==> m.session in held && !Roomy(|v.blocks[m.session]|, v.mtu))
  }

  ghost predicate ImportsOk(v: View, held: set<nat>, imports: seq<Import>)
    requires ViewOk(v)
  {
    forall i :: 0 <= i < |imports| ==> ImportOk(v, held, imports[i])
  }

  ghost predicate ExportOk(v: View, held: set<nat>, log: seq<Delivery>, x: Export)
    requires ViewOk(v)
  {
    && (x.active || x.completed ==>
          && x.engine == v.id && x.session in v.blocks && x.mtu == v.mtu
          && x.len == |v.blocks[x.session]| && x.Block() == v.blocks[x.session])
    && (x.completed ==> Acknowledged(v, held, log, x.session))
  }

  ghost predicate ExportsOk(v: View, held: set<nat>, log: seq<Delivery>, exports: seq<Export>)
    requires ViewOk(v)
  {
    forall i :: 0 <= i < |exports| ==> ExportOk(v, held, log, exports[i])
  }

  ghost predicate LogOk(v: View, log: seq<Delivery>) {
    forall d :: d in log ==> d.engine == v.id && d.session in v.blocks && d.block == v.blocks[d.session]
  }

  // ---- The invariant ----

  ghost predicate PartyOk(p: Party, q: Party) {
    && ConfigOk(p.engine.config) && ConfigOk(q.engine.config) && ViewOk(Self(p)) && ViewOk(Self(q))
    && (forall n :: n in p.blocks ==> n < p.engine.nextSession)
    && ExportsOk(Self(p), q.held, q.log, p.engine.exports)
    && ImportsOk(Self(q), p.held, p.engine.imports)
    && SentOk(Self(p), Self(q), p.held, p.log, p.wire)
    && LogOk(Self(q), p.log)
  }

  ghost predicate Invariant(s: System) {
    PartyOk(s.a, s.b) && PartyOk(s.b, s.a)
  }

  /** What a step must establish about its effect, given what holds before. */
  ghost predicate EffectOk(v: View, w: View, held: set<nat>, log: seq<Delivery>, pheld: set<nat>, plog: seq<Delivery>,
                           e: Engine, f: Effect)
    requires ViewOk(v) && ViewOk(w)
  {
    && f.engine.config == e.config && f.engine.localId == e.localId && f.engine.nextSession >= e.nextSession
    && ExportsOk(v, pheld, plog, f.engine.exports)
    && ImportsOk(w, held, f.engine.imports)
    && SentOk(v, w, held, log, f.sent)
    && LogOk(w, f.delivered)
  }

  // ---- Receiving data ----

  /** Accepting a good range keeps the slot good, and a full slot holds the block. */
  lemma AcceptOk(b: seq<byte>, mtu: nat, m: Import, kind: nat, offset: nat, payload: seq<byte>)
    requires mtu > 0 && SlotOk(b, mtu, m.data, m.claims, m.len) && RangeOk(b, mtu, kind, offset, payload)
    ensures var m1 := Accept(m, kind, offset, payload);
            && SlotOk(b, mtu, m1.data, m1.claims, m1.len)
            && (Full(m1.claims, |b|) ==> m1.data[..|b|] == b)
  {
    var m1 := Accept(m, kind, offset, payload);
    AcceptRange(b, mtu, m, kind, offset, payload);
    AcceptData(b, m, kind, offset, payload);
    if Full(m1.claims, |b|) {
      FullData(b, m1.data, m1.claims);
    }
  }

  lemma AcceptData(b: seq<byte>, m: Import, kind: nat, offset: nat, payload: seq<byte>)
    requires |b| <= MAX_BLOCK_SIZE && offset + |payload| <= |b| && payload == b[offset..offset + |payload|]
    requires forall x: nat :: Covers(m.claims, x) ==> x < |b| && m.data[x] == b[x]
    ensures var m1 := Accept(m, kind, offset, payload);
            forall x: nat :: Covers(m1.claims, x) ==> x < |b| && m1.data[x] == b[x]
  {
    var m1 := Accept(m, kind, offset, payload);
    forall x: nat | Covers(m1.claims, x) ensures x < |b| && m1.data[x] == b[x] {
      CoveredBefore(m.claims, offset, |payload|, x);
      Patched(m.data, b, offset, payload, x);
    }
  }

  lemma CoveredBefore(claims: Claims, offset: nat, length: nat, x: nat)
    requires Covers(AddClaim(claims, offset, length), x)
    ensures offset <= x < offset + length || Covers(claims, x)
  {
    AddClaimCovers(claims, offset, length, x);
  }

  lemma Patched(data: Buffer, b: seq<byte>, offset: nat, payload: seq<byte>, x: nat)
    requires |b| <= MAX_BLOCK_SIZE && offset + |payload| <= |b| && payload == b[offset..offset + |payload|] && x < |b|
    ensures var d := data[..offset] + payload + data[offset + |payload|..];
            |d| == MAX_BLOCK_SIZE && d[x] == if offset <= x < offset + |payload| then b[x] else data[x]
  {
  }

  lemma FullData(b: seq<byte>, data: Buffer, claims: seq<Claim>)
    requires |b| <= MAX_BLOCK_SIZE && Full(claims, |b|)
    requires forall x: nat :: Covers(claims, x) ==> x < |b| && data[x] == b[x]
    ensures data[..|b|] == b
  {
    FullCovers(claims, |b|);
  }

  lemma FullCovers(claims: seq<Claim>, n: nat)
    requires Full(claims, n)
    ensures forall x: nat :: x < n ==> Covers(claims, x)
  {
    forall x: nat | x < n ensures Covers(claims, x) {
      assert claims[0].offset <= x < claims[0].End();
    }
  }

  lemma AcceptRange(b: seq<byte>, mtu: nat, m: Import, kind: nat, offset: nat, payload: seq<byte>)
    requires mtu > 0 && SlotOk(b, mtu, m.data, m.claims, m.len) && RangeOk(b, mtu, kind, offset, payload)
    ensures var m1 := Accept(m, kind, offset, payload);
            && EndBy(m1.claims, |b|) && (m1.len == 0 || m1.len == |b|)
            && (Roomy(|b|, mtu) ==> ClaimsAt(m1.claims, Grid(|b|, mtu)) && (Covers(m1.claims, |b| - 1) <==> m1.len == |b|))
  {
    hide AddClaim, Drops, Full;
    AddClaimAt(m.claims, offset, |payload|, (x: nat) => true, |b|);
    if Roomy(|b|, mtu) {
      var g := Grid(|b|, mtu);
      assert g(offset) && g(offset + |payload|);
      AddClaimAt(m.claims, offset, |payload|, g, |b|);
      NeverDropped(m.claims, offset, |payload|, |b|, mtu);
      AddClaimCovers(m.claims, offset, |payload|, |b| - 1);
    }
  }

  /** Every session that a slot holds in full is in held. */
  ghost predicate HeldClosed(w: View, imports: seq<Import>, held: set<nat>) {
    forall n :: n in w.blocks && Holds(imports, w.id, n, w.blocks[n]) ==> n in held
  }

  /** The slot a data segment is put in, before the data: good, and open for its session. */
  lemma SlotReady(w: View, held: set<nat>, e: Engine, s: Segment)
    requires ViewOk(w) && ImportsOk(w, held, e.imports) && s.DataSeg? && DataOk(w, s)
    ensures var m := ImportAt(e, s.hdr);
            && m.active && m.engine == w.id && m.session == s.hdr.session && !m.complete && !m.delivered
            && SlotOk(w.blocks[m.session], w.mtu, m.data, m.claims, m.len)
  {
    var k := FindImport(e.imports, s.hdr.engine, s.hdr.session);
    if k < |e.imports| {
      assert ImportOk(w, held, e.imports[k]);
    } else {
      EmptySlotOk(w.blocks[s.hdr.session], w.mtu);
    }
  }

  lemma EmptySlotOk(b: seq<byte>, mtu: nat)
    requires mtu > 0 && 0 < |b| <= MAX_BLOCK_SIZE
    ensures SlotOk(b, mtu, Zeroes(MAX_BLOCK_SIZE), [], 0)
  {
  }

  /** A slot after a good data segment: full and told where the block ends, it completes with the block itself. */
  ghost predicate Accepted(b: seq<byte>, mtu: nat, m: Import)
    requires mtu > 0
  {
    && SlotOk(b, mtu, m.data, m.claims, m.len)
    && (Full(m.claims, |b|) ==> m.data[..|b|] == b)
    && !m.delivered && (m.complete <==> m.len > 0 && Full(m.claims, m.len))
  }

  lemma AcceptedOk(w: View, held: set<nat>, e: Engine, s: Segment)
    requires ViewOk(w) && ImportsOk(w, held, e.imports) && s.DataSeg? && DataOk(w, s)
    ensures s.offset + |s.payload| <= MAX_BLOCK_SIZE
    ensures var m := Accept(ImportAt(e, s.hdr), s.hdr.kind, s.offset, s.payload);
            && m.active && m.engine == w.id && m.session == s.hdr.session
            && Accepted(w.blocks[m.session], w.mtu, m)
            && (s.hdr.kind == RED_DATA_EORP_CP ==> m.len > 0)
  {
    SlotReady(w, held, e, s);
    AcceptOk(w.blocks[s.hdr.session], w.mtu, ImportAt(e, s.hdr), s.hdr.kind, s.offset, s.payload);
  }

  /** In a roomy block, claiming everything includes learning where it ends. */
  lemma RoomyFullCompletes(b: seq<byte>, mtu: nat, m: Import)
    requires mtu > 0 && Accepted(b, mtu, m) && Roomy(|b|, mtu) && Full(m.claims, |b|)
    ensures m.len == |b| && Completes(m)
  {
    FullCovers(m.claims, |b|);
  }

  lemma SettledOk(w: View, held: set<nat>, m: Import, kind: nat)
    requires ViewOk(w) && m.active && m.engine == w.id && m.session in w.blocks
    requires Accepted(w.blocks[m.session], w.mtu, m)
    requires Full(m.claims, |w.blocks[m.session]|) ==> m.session in held
    ensures ImportOk(w, held, Settle(m, kind))
  {
    var b := w.blocks[m.session];
    if Full(m.claims, |b|) && Roomy(|b|, w.mtu) {
      RoomyFullCompletes(b, w.mtu, m);
    }
  }

  lemma CompletedDelivery(w: View, m: Import)
    requires ViewOk(w) && m.engine == w.id && m.session in w.blocks
    requires Accepted(w.blocks[m.session], w.mtu, m) && Completes(m)
    ensures Delivery(m.engine, m.session, m.data[..m.len]) == Delivery(w.id, m.session, w.blocks[m.session])
  {
  }

  /** The report of a checkpoint says nothing that is not so. */
  lemma CheckpointReportOk(w: View, held: set<nat>, log: seq<Delivery>, e: Engine, m: Import, s: Segment)
    requires ViewOk(w) && s.DataSeg? && WellFormed(s) && DataOk(w, s) && IsCheckpoint(s.hdr.kind)
    requires m.engine == w.id && m.session == s.hdr.session && Accepted(w.blocks[m.session], w.mtu, m)
    requires s.hdr.kind == RED_DATA_EORP_CP ==> m.len > 0
    requires Full(m.claims, |w.blocks[m.session]|) ==> m.session in held
    requires Completes(m) ==> Delivery(w.id, m.session, w.blocks[m.session]) in log
    ensures WellFormed(CheckpointReport(e, m, s)) && ReportOk(w, held, log, CheckpointReport(e, m, s))
  {
    var b := w.blocks[m.session];
    var upper := CheckpointReport(e, m, s).upper;
    assert Roomy(|b|, w.mtu) ==> OnGrid(upper, |b|, w.mtu);
    if Full(m.claims, |b|) && Roomy(|b|, w.mtu) {
      RoomyFullCompletes(b, w.mtu, m);
    }
  }

  lemma DataStep(v: View, w: View, held: set<nat>, held': set<nat>, log: seq<Delivery>, pheld: set<nat>, plog: seq<Delivery>,
                 e: Engine, s: Segment, now: int)
    requires ViewOk(v) && ViewOk(w) && ExportsOk(v, pheld, plog, e.exports) && ImportsOk(w, held, e.imports)
    requires s.DataSeg? && WellFormed(s) && DataOk(w, s) && held <= held'
    requires var f := HandleData(e, s, now);
             HeldClosed(w, f.engine.imports, held') && forall d :: d in f.delivered ==> d in log
    ensures EffectOk(v, w, held', log, pheld, plog, e, HandleData(e, s, now))
  {
    hide AddClaim, Accepted, Fits, ExportOk, ImportOk, RangeOk, ReportOk, Accept, ArmReport;
    var slot := ImportSlot(e, s.hdr);
    if slot == |e.imports| {
      ImportsMonotone(w, held, held', e.imports);
    } else {
      AcceptedOk(w, held, e, s);
      var m := Accept(ImportAt(e, s.hdr), s.hdr.kind, s.offset, s.payload);
      var f := HandleData(e, s, now);
      var b := w.blocks[m.session];
      var m' := Settle(m, s.hdr.kind);
      if Full(m.claims, |b|) {
        assert SlotHolds(f.engine.imports[slot], w.id, m.session, b);
      }
      if Completes(m) {
        CompletedDelivery(w, m);
        assert Delivery(w.id, m.session, b) in f.delivered;
      }
      SettledOk(w, held', m, s.hdr.kind);
      ImportsMonotone(w, held, held', e.imports);
      ImportUpdate(w, held', e.imports, slot, m');
      if IsCheckpoint(s.hdr.kind) {
        CheckpointReportOk(w, held', log, e, m, s);
        ReportSent(v, CheckpointReport(e, m, s));
      }
    }
  }

  lemma ImportUpdate(w: View, held: set<nat>, imports: seq<Import>, k: nat, m: Import)
    requires ViewOk(w) && ImportsOk(w, held, imports) && k < |imports| && ImportOk(w, held, m)
    ensures ImportsOk(w, held, imports[k := m])
  {
    hide ImportOk;
  }

  lemma ReportSent(v: View, s: Segment)
    requires ViewOk(v) && s.ReportSeg?
    ensures DataOk(v, s)
  {
  }

  lemma ImportsMonotone(w: View, held: set<nat>, held': set<nat>, imports: seq<Import>)
    requires ViewOk(w) && ImportsOk(w, held, imports) && held <= held'
    ensures ImportsOk(w, held', imports)
  {
    forall i | 0 <= i < |imports| ensures ImportOk(w, held', imports[i]) {
      assert ImportOk(w, held, imports[i]);
    }
  }
}
