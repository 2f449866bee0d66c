/** Safety over every run of the two-party system. */
module TwoPartySafety {
  import opened Bytes
  import opened ClaimMap
  import opened ClaimRoom
  import opened LtpSegment
  import opened LtpState
  import opened LtpSegmentation
  import opened LtpSteps
  import opened TwoParty
  import opened TwoPartyInvariant
  import opened TwoPartySteps

  // ---- Growing histories lose nothing ----

  ghost predicate Extends(v: View, v': View) {
    && v'.id == v.id && v'.mtu == v.mtu
    && forall n :: n in v.blocks ==> n in v'.blocks && v'.blocks[n] == v.blocks[n]
  }

  lemma ImportsGrow(v: View, v': View, held: set<nat>, imports: seq<Import>)
    requires ViewOk(v) && ViewOk(v') && Extends(v, v') && ImportsOk(v, held, imports)
    ensures ImportsOk(v', held, imports)
  {
    forall i | 0 <= i < |imports| ensures ImportOk(v', held, imports[i]) {
      assert ImportOk(v, held, imports[i]);
    }
  }

  lemma ExportsGrow(v: View, v': View, held: set<nat>, held': set<nat>, log: seq<Delivery>, more: seq<Delivery>,
                    exports: seq<Export>)
    requires ViewOk(v) && ViewOk(v') && Extends(v, v') && held <= held' && ExportsOk(v, held, log, exports)
    ensures ExportsOk(v', held', log + more, exports)
  {
    forall i | 0 <= i < |exports| ensures ExportOk(v', held', log + more, exports[i]) {
      assert ExportOk(v, held, log, exports[i]);
    }
  }

  lemma SentGrows(v: View, v': View, w: View, w': View, held: set<nat>, held': set<nat>, log: seq<Delivery>,
                  more: seq<Delivery>, sent: seq<Segment>)
    requires ViewOk(v) && ViewOk(v') && Extends(v, v') && ViewOk(w) && ViewOk(w') && Extends(w, w') && held <= held'
    requires SentOk(v, w, held, log, sent)
    ensures SentOk(v', w', held', log + more, sent)
  {
    forall s | s in sent ensures WellFormed(s) && DataOk(v', s) && ReportOk(w', held', log + more, s) {
      assert DataOk(v, s) && ReportOk(w, held, log, s);
    }
  }

  // ---- One step of one party ----

  /** Recording a good effect keeps the acting party's side of the invariant. */
  lemma RecordOk(p: Party, q: Party, f: Effect)
    requires PartyOk(p, q)
    requires EffectOk(Self(p), Self(q), p.held + HeldNow(f.engine, q), p.log + f.delivered, q.held, q.log, p.engine, f)
    ensures PartyOk(Record(p, q, f), q)
  {
    var r := Record(p, q, f);
    SentGrows(Self(p), Self(p), Self(q), Self(q), p.held, r.held, p.log, f.delivered, p.wire);
    SentAppend(Self(p), Self(q), r.held, r.log, p.wire, f.sent);
  }

  /** The peer's side only sees histories grow. */
  lemma PeerOk(p: Party, p': Party, q: Party, more: seq<Delivery>)
    requires PartyOk(q, p) && p'.held >= p.held && p'.log == p.log + more
    requires ConfigOk(p'.engine.config) && ViewOk(Self(p')) && Extends(Self(p), Self(p'))
    ensures PartyOk(q, p')
  {
    ExportsGrow(Self(q), Self(q), p.held, p'.held, p.log, more, q.engine.exports);
    ImportsGrow(Self(p), Self(p'), q.held, q.engine.imports);
    assert q.log + [] == q.log;
    SentGrows(Self(q), Self(q), Self(p), Self(p'), q.held, q.held, q.log, [], q.wire);
  }

  lemma ReceiveOk(p: Party, q: Party, i: nat, now: int)
    requires PartyOk(p, q) && PartyOk(q, p) && i < |q.wire|
    ensures PartyOk(Record(p, q, Process(p.engine, Wire(q.wire[i]), now)), q)
  {
    var s := q.wire[i];
    var f := Process(p.engine, Wire(s), now);
    var held' := p.held + HeldNow(f.engine, q);
    assert s in q.wire;
    assert WellFormed(s) && DataOk(Self(q), s) && ReportOk(Self(p), q.held, q.log, s);
    ProcessWire(p.engine, s, now);
    ImportsMonotone(Self(q), p.held, held', p.engine.imports);
    if Decodable(s) {
      HandleStep(Self(p), Self(q), p.held, held', p.log + f.delivered, q.held, q.log, p.engine, s, now);
    }
    RecordOk(p, q, f);
  }

  lemma ExpireOk(p: Party, q: Party, now: int)
    requires PartyOk(p, q)
    ensures PartyOk(Record(p, q, FireExpired(p.engine, now)), q)
  {
    var f := FireExpired(p.engine, now);
    var held' := p.held + HeldNow(f.engine, q);
    ImportsMonotone(Self(q), p.held, held', p.engine.imports);
    FireFromOk(Self(p), Self(q), held', p.log + f.delivered, q.held, q.log, p.engine, 0, now);
    RecordOk(p, q, f);
  }

  lemma CancelOk(p: Party, q: Party, n: nat, now: int)
    requires PartyOk(p, q)
    ensures PartyOk(Record(p, q, CancelSession(p.engine, n, now)), q)
  {
    var f := CancelSession(p.engine, n, now);
    ImportsMonotone(Self(q), p.held, p.held + HeldNow(f.engine, q), p.engine.imports);
    RecordOk(p, q, f);
  }

  // ---- Sending ----

  /** The first transmission: consecutive cells of the grid, the last one marked as the end of the block. */
  lemma FirstPieces(b: seq<byte>, mtu: nat, i: nat)
    requires mtu > 0 && 0 < |b| && i < |Pieces(0, |b|, mtu)|
    ensures var ps := Pieces(0, |b|, mtu);
            PieceOk(b, mtu, if i == |ps| - 1 then RED_DATA_EORP_CP else RED_DATA, ps[i])
  {
    var ps := Pieces(0, |b|, mtu);
    PiecesExact(0, |b|, mtu);
    PiecesAt(0, |b|, |b|, mtu);
    assert Grid(|b|, mtu)(ps[i].offset) && Grid(|b|, mtu)(ps[i].End());
    assert Covers(ps, |b| - 1);
    var j :| 0 <= j < |ps| && ps[j].offset <= |b| - 1 < ps[j].End();
    LastReaches(ps, |b|, j);
    if i < |ps| - 1 {
      assert ps[i].End() <= ps[|ps| - 1].offset;
    }
  }

  lemma LastReaches(ps: seq<Claim>, n: nat, j: nat)
    requires Ascending(ps) && Within(ps, 0, n) && j < |ps| && ps[j].End() == n
    ensures j == |ps| - 1
  {
    var k := if j + 1 < |ps| then j + 1 else j;
    assert ps[k].length > 0 && ps[k].End() <= n;
  }

  lemma PaddedBlock(block: seq<byte>)
    requires |block| <= MAX_BLOCK_SIZE
    ensures Padded(block)[..|block|] == block
  {
  }

  lemma SendOk(p: Party, q: Party, remote: nat, block: seq<byte>, now: int)
    requires PartyOk(p, q) && CanSend(p.engine, block)
    ensures var f := SendBlock(p.engine, remote, block, now);
            var v := Self(p).(blocks := p.blocks[p.engine.nextSession := block]);
            ViewOk(v) && Extends(Self(p), v)
            && EffectOk(v, Self(q), p.held + HeldNow(f.engine, q), p.log + f.delivered, q.held, q.log, p.engine, f)
            && f.engine.nextSession == p.engine.nextSession + 1
  {
    var e := p.engine;
    var f := SendBlock(e, remote, block, now);
    var v := Self(p).(blocks := p.blocks[e.nextSession := block]);
    var held' := p.held + HeldNow(f.engine, q);
    ImportsMonotone(Self(q), p.held, held', e.imports);
    assert q.log + [] == q.log;
    ExportsGrow(Self(p), v, q.held, q.held, q.log, [], e.exports);
    OpenedOk(v, q.held, q.log, e, remote, block);
    ExportUpdate(v, q.held, q.log, e.exports, FreeExport(e.exports), OpenedExport(e, remote, block));
    FirstSentOk(v, Self(q), held', p.log + f.delivered, e, remote, block);
  }

  lemma OpenedOk(v: View, held: set<nat>, log: seq<Delivery>, e: Engine, remote: nat, block: seq<byte>)
    requires ViewOk(v) && e.localId == v.id && e.config.mtu == v.mtu && |block| <= MAX_BLOCK_SIZE
    requires e.nextSession in v.blocks && v.blocks[e.nextSession] == block
    ensures ExportOk(v, held, log, OpenedExport(e, remote, block))
  {
    PaddedBlock(block);
  }

  lemma FirstSentOk(v: View, w: View, held: set<nat>, log: seq<Delivery>, e: Engine, remote: nat, block: seq<byte>)
    requires ViewOk(v) && ViewOk(w) && e.localId == v.id && e.config.mtu == v.mtu && ConfigOk(e.config)
    requires |block| <= MAX_BLOCK_SIZE && e.nextSession in v.blocks && v.blocks[e.nextSession] == block
    ensures SentOk(v, w, held, log, EmitUntilStuck(BlockSegments(e, remote, block)))
  {
    var x := OpenedExport(e, remote, block);
    PaddedBlock(block);
    var ps := Pieces(0, |block|, e.config.mtu);
    forall i | 0 <= i < |ps|
      ensures PieceOk(block, v.mtu, if i == |ps| - 1 then RED_DATA_EORP_CP else RED_DATA, ps[i])
    {
      FirstPieces(block, v.mtu, i);
    }
    SegmentsOk(v, x, ps, RED_DATA_EORP_CP, 1);
    EmitUntilStuckPrefix(BlockSegments(e, remote, block));
    DataSentIsSent(v, w, held, log, EmitUntilStuck(BlockSegments(e, remote, block)));
  }

  lemma SendStepOk(p: Party, q: Party, remote: nat, block: seq<byte>, now: int)
    requires PartyOk(p, q) && CanSend(p.engine, block)
    ensures PartyOk(Act(p, q, Send(remote, block), now), q)
  {
    var f := SendBlock(p.engine, remote, block, now);
    SendOk(p, q, remote, block, now);
    var v := Self(p).(blocks := p.blocks[p.engine.nextSession := block]);
    var r := Act(p, q, Send(remote, block), now);
    SentGrows(Self(p), v, Self(q), Self(q), p.held, r.held, p.log, f.delivered, p.wire);
    SentAppend(v, Self(q), r.held, r.log, p.wire, f.sent);
  }

  // ---- Every step, every run ----

  lemma ActOk(p: Party, q: Party, action: Action, now: int)
    requires PartyOk(p, q) && PartyOk(q, p)
    ensures PartyOk(Act(p, q, action, now), q) && PartyOk(q, Act(p, q, action, now))
  {
    var p' := Act(p, q, action, now);
    ActKeepsConfig(p, q, action, now);
    match action {
      case Send(remote, block) =>
        if CanSend(p.engine, block) {
          SendOk(p, q, remote, block, now);
          SendStepOk(p, q, remote, block, now);
        } else {
          RecordNothing(p, q);
        }
        PeerOk(p, p', q, SendBlock(p.engine, remote, block, now).delivered);
      case Cancel(n) =>
        CancelOk(p, q, n, now);
        PeerOk(p, p', q, CancelSession(p.engine, n, now).delivered);
      case Receive(i) =>
        if i < |q.wire| {
          ReceiveOk(p, q, i, now);
          PeerOk(p, p', q, Process(p.engine, Wire(q.wire[i]), now).delivered);
        }
      case Expire =>
        ExpireOk(p, q, now);
        PeerOk(p, p', q, FireExpired(p.engine, now).delivered);
    }
  }

  lemma RecordNothing(p: Party, q: Party)
    requires PartyOk(p, q)
    ensures PartyOk(Record(p, q, Nothing(p.engine)), q)
  {
    ImportsMonotone(Self(q), p.held, p.held + HeldNow(p.engine, q), p.engine.imports);
    RecordOk(p, q, Nothing(p.engine));
  }

  lemma StartedOk(c: Config, id: nat, d: Config, id': nat)
    requires ConfigOk(c) && ConfigOk(d)
    ensures PartyOk(Started(c, id), Started(d, id'))
  {
  }

  /** Every reachable state satisfies the invariant. */
  lemma {:induction false} RunInvariant(s: System, steps: seq<Step>)
    requires Invariant(s) && ConfigsOk(s)
    ensures Invariant(Run(s, steps))
  {
    if steps != [] {
      var r := Run(s, steps[..|steps| - 1]);
      var t := steps[|steps| - 1];
      RunInvariant(s, steps[..|steps| - 1]);
      if t.byA { ActOk(r.a, r.b, t.action, t.now); } else { ActOk(r.b, r.a, t.action, t.now); }
    }
  }

  ghost function Started2(c: Config, id: nat, d: Config, id': nat): System {
    System(Started(c, id), Started(d, id'))
  }

  /**
   * Two-party safety: whatever the network does, every block handed to the application is byte for byte a
   * block the peer segmented, the one it segmented under that session number.
   */
  lemma DeliveredIsSent(c: Config, id: nat, d: Config, id': nat, steps: seq<Step>)
    requires ConfigOk(c) && ConfigOk(d)
    ensures var s := Run(Started2(c, id, d, id'), steps);
            && (forall x :: x in s.a.log ==> x.session in s.b.blocks && x.block == s.b.blocks[x.session])
            && (forall x :: x in s.b.log ==> x.session in s.a.blocks && x.block == s.a.blocks[x.session])
  {
    StartedOk(c, id, d, id');
    StartedOk(d, id', c, id);
    RunInvariant(Started2(c, id, d, id'), steps);
  }

  // ---- Either party ----

  ghost function Side(s: System, isA: bool): Party {
    if isA then s.a else s.b
  }

  /** A step changes the party that takes it, and no other. */
  lemma StepSide(s: System, t: Step, isA: bool)
    requires ConfigsOk(s)
    ensures ConfigOk(Side(s, isA).engine.config)
    ensures Side(Apply(s, t), isA)
         == if t.byA == isA then Act(Side(s, isA), Side(s, !isA), t.action, t.now) else Side(s, isA)
    ensures Side(Apply(s, t), isA).engine.localId == Side(s, isA).engine.localId
    ensures Side(Apply(s, t), isA).engine.config == Side(s, isA).engine.config
  {
    hide Act;
    ActKeepsConfig(Side(s, isA), Side(s, !isA), t.action, t.now);
  }

  /** The last step of a run. */
  lemma LastStep(s: System, steps: seq<Step>)
    requires ConfigsOk(s) && steps != []
    ensures Run(s, steps) == Apply(Run(s, steps[..|steps| - 1]), steps[|steps| - 1])
  {
    hide Apply;
  }

  lemma SideOk(s: System, isA: bool)
    requires Invariant(s) && ConfigsOk(s)
    ensures PartyOk(Side(s, isA), Side(s, !isA))
  {
    hide PartyOk;
  }

  /** A step files at most a new block, under the next session number. */
  lemma StepExtends(s: System, t: Step, isA: bool)
    requires ConfigsOk(s) && Invariant(s)
    ensures Extends(Self(Side(s, isA)), Self(Side(Apply(s, t), isA)))
  {
    hide Apply, Invariant, SendBlock, Process, FireExpired, CancelSession, HeldNow, CanSend;
    StepSide(s, t, isA);
    SideOk(s, isA);
    var p := Side(s, isA);
    assert forall n :: n in p.blocks ==> n < p.engine.nextSession;
  }

  lemma ExtendsTransitive(u: View, v: View, w: View)
    requires Extends(u, v) && Extends(v, w)
    ensures Extends(u, w)
  {
  }

  /** Blocks are never re-filed: a session number, once used, keeps its block for the rest of the run. */
  lemma {:induction false} BlocksKept(s: System, steps: seq<Step>, k: nat, isA: bool)
    requires Invariant(s) && ConfigsOk(s) && k <= |steps|
    ensures Extends(Self(Side(Run(s, steps[..k]), isA)), Self(Side(Run(s, steps), isA)))
  {
    if k < |steps| {
      hide Apply, Invariant, Extends, Side, Self;
      var prev := steps[..|steps| - 1];
      BlocksKept(s, prev, k, isA);
      assert prev[..k] == steps[..k];
      RunInvariant(s, prev);
      LastStep(s, steps);
      StepExtends(Run(s, prev), steps[|steps| - 1], isA);
      ExtendsTransitive(Self(Side(Run(s, steps[..k]), isA)), Self(Side(Run(s, prev), isA)), Self(Side(Run(s, steps), isA)));
    } else {
      assert steps[..k] == steps;
    }
  }

  /** After some steps, a slot of the sender's peer claims and contains the whole of the block. */
  ghost predicate HeldAt(s: System, steps: seq<Step>, isA: bool, n: nat, block: seq<byte>)
    requires ConfigsOk(s)
  {
    Holds(Side(Run(s, steps), !isA).engine.imports, Side(s, isA).engine.localId, n, block)
  }

  lemma {:induction false} SameIdentity(s: System, steps: seq<Step>, isA: bool)
    requires ConfigsOk(s)
    ensures Side(Run(s, steps), isA).engine.localId == Side(s, isA).engine.localId
    ensures Side(Run(s, steps), isA).engine.config == Side(s, isA).engine.config
  {
    if steps != [] {
      hide Apply, Side;
      SameIdentity(s, steps[..|steps| - 1], isA);
      LastStep(s, steps);
      StepSide(Run(s, steps[..|steps| - 1]), steps[|steps| - 1], isA);
    }
  }

  /** Sessions of the party that its peer has ever recorded as held. */
  ghost predicate Recorded(s: System, isA: bool, n: nat) {
    n in Side(s, !isA).held && n in Side(s, isA).blocks
  }

  /** The peer's history of held sessions records real states of the run. */
  lemma {:induction false} HeldMeans(s: System, steps: seq<Step>, isA: bool, n: nat)
    requires ConfigsOk(s) && Invariant(s) && Side(s, !isA).held == {}
    requires Recorded(Run(s, steps), isA, n)
    ensures exists k :: 0 <= k <= |steps| && HeldAt(s, steps[..k], isA, n, Side(Run(s, steps), isA).blocks[n])
  {
    assert steps[..|steps|] == steps;
    if steps == [] {
      NothingHeld(s, isA, n);
    } else {
      hide *;
      var prev := steps[..|steps| - 1];
      if Recorded(Run(s, prev), isA, n) {
        HeldMeans(s, prev, isA, n);
        var k :| 0 <= k <= |prev| && HeldAt(s, prev[..k], isA, n, Side(Run(s, prev), isA).blocks[n]);
        SameBlock(s, steps, isA, n);
        assert prev[..k] == steps[..k];
      } else {
        HeldNewly(s, steps, isA, n);
      }
    }
  }

  lemma NothingHeld(s: System, isA: bool, n: nat)
    requires ConfigsOk(s) && Side(s, !isA).held == {}
    ensures !Recorded(Run(s, []), isA, n)
  {
  }

  lemma SameBlock(s: System, steps: seq<Step>, isA: bool, n: nat)
    requires ConfigsOk(s) && Invariant(s) && steps != [] && n in Side(Run(s, steps[..|steps| - 1]), isA).blocks
    ensures n in Side(Run(s, steps), isA).blocks
    ensures Side(Run(s, steps), isA).blocks[n] == Side(Run(s, steps[..|steps| - 1]), isA).blocks[n]
  {
    hide Run, Apply, Invariant, Side;
    BlocksKept(s, steps, |steps| - 1, isA);
  }

  lemma HeldNewly(s: System, steps: seq<Step>, isA: bool, n: nat)
    requires ConfigsOk(s) && Invariant(s) && steps != [] && Side(s, !isA).held == {}
    requires Recorded(Run(s, steps), isA, n) && !Recorded(Run(s, steps[..|steps| - 1]), isA, n)
    ensures HeldAt(s, steps, isA, n, Side(Run(s, steps), isA).blocks[n])
  {
    hide Run, Apply, Invariant, Side;
    var prev := steps[..|steps| - 1];
    if n in Side(Run(s, prev), !isA).held {
      HeldKnown(s, prev, isA, n);
    }
    LastStep(s, steps);
    StepHolds(Run(s, prev), steps[|steps| - 1], isA, n);
    SameIdentity(s, prev, isA);
  }

  /** A session newly recorded as held is held in the state the step leads to. */
  lemma StepHolds(r: System, t: Step, isA: bool, n: nat)
    requires ConfigsOk(r) && n !in Side(r, !isA).held && n in Side(Apply(r, t), !isA).held
    ensures Side(Apply(r, t), isA) == Side(r, isA) && n in Side(r, isA).blocks
    ensures Holds(Side(Apply(r, t), !isA).engine.imports, Side(r, isA).engine.localId, n, Side(r, isA).blocks[n])
  {
    hide Apply, SendBlock, Process, FireExpired, CancelSession, Holds, CanSend;
    StepSide(r, t, !isA);
    StepSide(r, t, isA);
  }

  lemma {:induction false} HeldKnown(s: System, steps: seq<Step>, isA: bool, n: nat)
    requires ConfigsOk(s) && Invariant(s) && Side(s, !isA).held == {} && n in Side(Run(s, steps), !isA).held
    ensures n in Side(Run(s, steps), isA).blocks
  {
    if steps != [] {
      hide Apply, Invariant, Side;
      var prev := steps[..|steps| - 1];
      LastStep(s, steps);
      if n in Side(Run(s, prev), !isA).held {
        HeldKnown(s, prev, isA, n);
        SameBlock(s, steps, isA, n);
      } else {
        StepHolds(Run(s, prev), steps[|steps| - 1], isA, n);
      }
    }
  }

  /**
   * Acknowledgement soundness, for either party: for every session the sender counts as completed, some
   * earlier state of the run had a slot of the peer claim and contain the whole block; and a roomy block has
   * been delivered.
   */
  lemma CompletedIsHeld(c: Config, id: nat, d: Config, id': nat, steps: seq<Step>, isA: bool, i: nat)
    requires ConfigOk(c) && ConfigOk(d)
    requires var p := Side(Run(Started2(c, id, d, id'), steps), isA);
             i < |p.engine.exports| && p.engine.exports[i].completed
    ensures var s0 := Started2(c, id, d, id');
            var p, q := Side(Run(s0, steps), isA), Side(Run(s0, steps), !isA);
            var n := p.engine.exports[i].session;
            && n in p.blocks
            && (exists k :: 0 <= k <= |steps| && HeldAt(s0, steps[..k], isA, n, p.blocks[n]))
            && (Roomy(|p.blocks[n]|, (if isA then c else d).mtu)
                ==> Delivery(if isA then id else id', n, p.blocks[n]) in q.log)
  {
    hide Run, Roomy, HeldAt;
    var s0 := Started2(c, id, d, id');
    StartedOk(c, id, d, id');
    StartedOk(d, id', c, id);
    RunInvariant(s0, steps);
    var s := Run(s0, steps);
    SideOk(s, isA);
    var p, q := Side(s, isA), Side(s, !isA);
    assert ExportOk(Self(p), q.held, q.log, p.engine.exports[i]);
    SameIdentity(s0, steps, isA);
    HeldMeans(s0, steps, isA, p.engine.exports[i].session);
  }
}
