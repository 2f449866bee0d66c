/** The steps that the runs of LostEnd are made of: what the two parties do with the segments of one block. */
module LostEndSteps {
  import opened Bytes
  import opened ClaimMap
  import opened ClaimRoom
  import opened LtpSegment
  import opened LtpState
  import opened LtpSegmentation
  import opened LtpSteps
  import opened LtpDiscipline
  import opened LtpTimers
  import opened TwoParty
  import opened TwoPartyInvariant
  import opened TwoPartySteps
  import opened TwoPartySafety
  import opened LtpAnyOrder
  import opened LtpConvergence
  import opened LtpRound
  import opened LtpRoundRuns
  import opened Sdnv

  /** The sender's engine, and the receiver's. */
  const ALICE := 1
  const BOB := 2

  /** By then every timer started at time 0 has expired. */
  const LATE := 1_000_000_000

  function SenderConfig(mtu: nat): Config {
    Config(mtu, 0, 2, MAX_BLOCK_SIZE)
  }

  function ReceiverConfig(mtu: nat): Config {
    Config(mtu, 0, 1, MAX_BLOCK_SIZE)
  }

  ghost function Start(mtu: nat): System {
    Started2(SenderConfig(mtu), ALICE, ReceiverConfig(mtu), BOB)
  }

  ghost predicate Reachable(mtu: nat, s: System)
    requires mtu > 0
  {
    exists steps :: Run(Start(mtu), steps) == s
  }

  /** What every reachable state satisfies, and the states one step further. */
  lemma ReachableOk(mtu: nat, s: System)
    requires mtu > 0 && Reachable(mtu, s)
    ensures ConfigsOk(s) && Invariant(s) && UniqueImports(s.b.engine.imports)
    ensures s.a.engine.localId == ALICE && s.a.engine.config == SenderConfig(mtu)
    ensures s.b.engine.localId == BOB && s.b.engine.config == ReceiverConfig(mtu)
  {
    var steps :| Run(Start(mtu), steps) == s;
    StartedOk(SenderConfig(mtu), ALICE, ReceiverConfig(mtu), BOB);
    StartedOk(ReceiverConfig(mtu), BOB, SenderConfig(mtu), ALICE);
    hide Run, Invariant, Disciplined;
    assert Invariant(Start(mtu)) by { InvariantIs(Start(mtu)); }
    RunInvariant(Start(mtu), steps);
    SameIdentity(Start(mtu), steps, true);
    SameIdentity(Start(mtu), steps, false);
    StartedApart(SenderConfig(mtu), ALICE, ReceiverConfig(mtu), BOB, false);
    RunDisciplined(Start(mtu), steps, false);
    ApartImports(Written(s.b));
  }

  lemma InvariantIs(s: System)
    requires PartyOk(s.a, s.b) && PartyOk(s.b, s.a)
    ensures Invariant(s)
  {
    hide PartyOk;
  }

  lemma ApartImports(h: History)
    requires Disciplined(h)
    ensures UniqueImports(h.engine.imports)
  {
    hide UniqueImports, UniqueExports, Spent, Increasing;
  }

  lemma ReachNext(mtu: nat, s: System, t: Step)
    requires mtu > 0 && Reachable(mtu, s) && ConfigsOk(s)
    ensures Reachable(mtu, Apply(s, t))
  {
    hide Apply;
    var steps :| Run(Start(mtu), steps) == s;
    assert (steps + [t])[..|steps|] == steps;
    assert Run(Start(mtu), steps + [t]) == Apply(s, t);
  }

  /** A step that receives a segment, or lets timers expire. */
  lemma Moves(s: System, isA: bool, action: Action, now: int)
    requires ConfigsOk(s) && (action.Receive? || action.Expire?)
    requires action.Receive? ==> action.index < |Side(s, !isA).wire|
    ensures var s' := Apply(s, Step(isA, action, now));
            var p, p' := Side(s, isA), Side(s', isA);
            var f := if action.Receive? then Process(p.engine, Wire(Side(s, !isA).wire[action.index]), now)
                     else FireExpired(p.engine, now);
            && Side(s', !isA) == Side(s, !isA) && p'.engine == f.engine && p'.blocks == p.blocks
            && p'.wire == p.wire + f.sent && p'.log == p.log + f.delivered
  {
    hide Process, FireExpired, HeldNow, Wire;
  }

  lemma Nowhere<T>(w: seq<T>, more: seq<T>)
    requires more == []
    ensures w + more == w
  {
  }

  // ---- Segments of the block ----

  /** A segment of the block in the sender's first session. */
  ghost function Seg(b: seq<byte>, kind: nat, r: Claim, serial: nat): Segment
    requires r.End() <= |b|
  {
    DataSeg(Header(0, kind, ALICE, 1, 0, 0), 1, r.offset, serial, 0, b[r.offset..r.End()])
  }

  ghost predicate CanHear(b: seq<byte>, kind: nat, r: Claim, serial: nat) {
    && |b| <= MAX_BLOCK_SIZE && kind <= RED_DATA_EORP_CP && r.length > 0 && r.End() <= |b| && r.length <= ROUND_MTU
    && (IsCheckpoint(kind) || serial == 0) && serial < INT64_LIMIT && (kind == RED_DATA_EORP_CP ==> r.End() == |b|)
  }

  lemma SegFits(b: seq<byte>, kind: nat, r: Claim, serial: nat)
    requires CanHear(b, kind, r, serial)
    ensures var s := Seg(b, kind, r, serial); WellFormed(s) && Fits(s, SEGMENT_BUF) && Decodable(s)
  {
    hide Fits, Decodable;
    FitsBothWays(Seg(b, kind, r, serial));
  }

  // ---- The receiver ----

  /** The receiver's session, open or about to be opened: its claims, what it knows of the block's end, its next serial. */
  ghost predicate Slot(e: Engine, claims: Claims, len: nat, rpt: nat) {
    var h := Header(0, RED_DATA, ALICE, 1, 0, 0);
    && ImportSlot(e, h) < |e.imports|
    && var m := ImportAt(e, h);
       && m.active && m.engine == ALICE && m.session == 1 && !m.complete && !m.delivered
       && m.claims == claims && m.len == len && m.nextRpt == rpt
  }

  /** Only report timers of the session, all of them due by LATE. */
  ghost predicate ReportTimers(ts: seq<Timer>) {
    forall i :: 0 <= i < |ts| && ts[i].active ==>
      ts[i].kind == REPORT_TIMER && ts[i].session == 1 && ts[i].expiry <= LATE && ts[i].retries >= 0
  }

  ghost predicate Listens(q: Party, claims: Claims, len: nat, rpt: nat) {
    Slot(q.engine, claims, len, rpt) && ReportTimers(q.engine.timers) && |q.engine.timers| > 0 && q.log == []
  }

  lemma PutSlot(e: Engine, f: Engine, k: nat, m: Import)
    requires k == ImportSlot(e, Header(0, RED_DATA, ALICE, 1, 0, 0)) < |e.imports|
    requires f.imports == e.imports[k := m] && m.active && m.engine == ALICE && m.session == 1 && !m.complete && !m.delivered
    ensures Slot(f, m.claims, m.len, m.nextRpt)
  {
    forall i | 0 <= i < k
      ensures !(f.imports[i].active && f.imports[i].engine == ALICE && f.imports[i].session == 1)
    {
      assert f.imports[i] == e.imports[i];
    }
    assert f.imports[k] == m;
  }

  lemma ReportStarted(ts: seq<Timer>, rpt: nat)
    requires ReportTimers(ts) && |ts| > 0
    ensures var us := StartTimer(ts, REPORT_TIMER, ALICE, 1, rpt, 200_000_000);
            ReportTimers(us) && |us| == |ts| && exists i :: 0 <= i < |us| && us[i].active
  {
    var k := FreeTimer(ts);
    var us := StartTimer(ts, REPORT_TIMER, ALICE, 1, rpt, 200_000_000);
    if k == |ts| {
      assert us[0].active;
    } else {
      assert us[k].active;
    }
  }

  lemma AcceptShort(m0: Import, kind: nat, offset: nat, payload: seq<byte>, len: nat)
    requires offset + |payload| <= MAX_BLOCK_SIZE && !m0.complete && m0.len == 0
    requires len == (if kind == RED_DATA_EORP_CP then offset + |payload| else 0)
    requires len > 0 ==> !Full(AddClaim(m0.claims, offset, |payload|), len)
    ensures var m := Accept(m0, kind, offset, payload);
            && m.active == m0.active && m.engine == m0.engine && m.session == m0.session && m.nextRpt == m0.nextRpt
            && m.delivered == m0.delivered && !m.complete && m.len == len
            && m.claims == AddClaim(m0.claims, offset, |payload|)
  {
    hide AddClaim, Full;
  }

  lemma SameSession(e: Engine, h: Header)
    requires h.engine == ALICE && h.session == 1
    ensures var h0 := Header(0, RED_DATA, ALICE, 1, 0, 0);
            ImportSlot(e, h) == ImportSlot(e, h0) && ImportAt(e, h) == ImportAt(e, h0)
  {
  }

  lemma HandleIs(e: Engine, s: Segment)
    requires s.DataSeg? && ImportSlot(e, s.hdr) < |e.imports| && s.offset + |s.payload| <= MAX_BLOCK_SIZE
    requires !Accept(ImportAt(e, s.hdr), s.hdr.kind, s.offset, s.payload).complete
    ensures var m := Accept(ImportAt(e, s.hdr), s.hdr.kind, s.offset, s.payload);
            var m' := if IsCheckpoint(s.hdr.kind) then m.(nextRpt := m.nextRpt + 1) else m;
            HandleData(e, s, 0)
            == Effect(e.(imports := e.imports[ImportSlot(e, s.hdr) := m'], timers := ArmReport(e, m, s.hdr.kind, 0)),
                      ReportFor(e, m, s), [])
  {
    hide Accept, ImportSlot, ImportAt, ArmReport, ReportFor;
  }

  lemma AnswerIs(e: Engine, m: Import, s: Segment, b: seq<byte>)
    requires s.DataSeg? && s.hdr.session == 1 && e.localId == BOB && e.config.owltMs == 0 && s.cpSerial < INT64_LIMIT
    requires m.engine == ALICE && m.session == 1 && m.nextRpt < INT64_LIMIT && EndBy(m.claims, |b|) && |b| <= MAX_BLOCK_SIZE
    requires s.offset + |s.payload| <= |b| && m.len <= |b|
    requires ReportTimers(e.timers) && |e.timers| > 0
    ensures var upper := if m.len > 0 then m.len else s.offset + |s.payload|;
            ReportFor(e, m, s)
            == if IsCheckpoint(s.hdr.kind) then [RoundReport(BOB, 1, m.nextRpt, s.cpSerial, upper, m.claims)] else []
    ensures var us := ArmReport(e, m, s.hdr.kind, 0);
            ReportTimers(us) && |us| == |e.timers|
            && (IsCheckpoint(s.hdr.kind) ==> exists i :: 0 <= i < |us| && us[i].active)
  {
    hide Fits, Decodable, StartTimer, ReportTimers;
    var upper := if m.len > 0 then m.len else s.offset + |s.payload|;
    ReportFitsUpTo(BOB, 1, m.nextRpt, s.cpSerial, upper, |b|, m.claims);
    ReportStarted(e.timers, m.nextRpt);
  }

  /** What a segment does to the receiver's session as long as it does not complete it. */
  lemma HearData(e: Engine, b: seq<byte>, kind: nat, r: Claim, serial: nat, claims: Claims, len: nat, rpt: nat)
    requires Slot(e, claims, 0, rpt) && CanHear(b, kind, r, serial) && rpt < INT64_LIMIT && e.localId == BOB
    requires len == (if kind == RED_DATA_EORP_CP then |b| else 0)
    requires EndBy(claims, |b|) && ReportTimers(e.timers) && |e.timers| > 0 && e.config.owltMs == 0
    requires var after := AddClaim(claims, r.offset, r.length); len > 0 ==> !Full(after, len)
    ensures var f := HandleData(e, Seg(b, kind, r, serial), 0);
            var after := AddClaim(claims, r.offset, r.length);
            && Slot(f.engine, after, len, if IsCheckpoint(kind) then rpt + 1 else rpt)
            && EndBy(after, |b|) && ReportTimers(f.engine.timers) && |f.engine.timers| == |e.timers|
            && f.delivered == []
            && f.sent == (if IsCheckpoint(kind) then [RoundReport(BOB, 1, rpt, serial, if len > 0 then len else r.End(), after)]
                          else [])
            && (IsCheckpoint(kind) ==> exists i :: 0 <= i < |f.engine.timers| && f.engine.timers[i].active)
  {
    hide AddClaim, Full, Accept, ReportTimers, HandleData, ArmReport, ReportFor, EndBy, RoundReport, ImportSlot, ImportAt;
    var s := Seg(b, kind, r, serial);
    SameSession(e, s.hdr);
    var k, m0 := ImportSlot(e, s.hdr), ImportAt(e, s.hdr);
    var m := Accept(m0, kind, r.offset, s.payload);
    AcceptShort(m0, kind, r.offset, s.payload, len);
    AddClaimAt(claims, r.offset, r.length, (x: nat) => true, |b|);
    HandleIs(e, s);
    AnswerIs(e, m, s, b);
    var m' := if IsCheckpoint(kind) then m.(nextRpt := m.nextRpt + 1) else m;
    hide Slot;
    PutSlot(e, HandleData(e, s, 0).engine, k, m');
  }

  /** Some timer is running. */
  ghost predicate Ticking(e: Engine) {
    exists i :: 0 <= i < |e.timers| && e.timers[i].active
  }

  /** What the receiver writes when it hears a segment. */
  ghost function Reply(b: seq<byte>, kind: nat, r: Claim, serial: nat, claims: Claims, rpt: nat): seq<Segment> {
    if IsCheckpoint(kind) then [RoundReport(BOB, 1, rpt, serial, if kind == RED_DATA_EORP_CP then |b| else r.End(), claims)] else []
  }

  ghost predicate Quiet(b: seq<byte>, kind: nat, r: Claim, claims: Claims) {
    kind == RED_DATA_EORP_CP ==> !Full(AddClaim(claims, r.offset, r.length), |b|)
  }

  /** The receiver hears a segment the sender has written, and it does not complete the session. */
  lemma Hear(mtu: nat, s: System, b: seq<byte>, kind: nat, r: Claim, serial: nat, claims: Claims, rpt: nat)
    returns (s': System)
    requires mtu > 0 && Reachable(mtu, s) && Listens(s.b, claims, 0, rpt) && rpt < INT64_LIMIT && EndBy(claims, |b|)
    requires CanHear(b, kind, r, serial) && Seg(b, kind, r, serial) in s.a.wire && Quiet(b, kind, r, claims)
    ensures var after := AddClaim(claims, r.offset, r.length);
            && Reachable(mtu, s') && s'.a == s.a && EndBy(after, |b|)
            && Listens(s'.b, after, if kind == RED_DATA_EORP_CP then |b| else 0, if IsCheckpoint(kind) then rpt + 1 else rpt)
            && s'.b.wire == s.b.wire + Reply(b, kind, r, serial, after, rpt)
            && (IsCheckpoint(kind) ==> Ticking(s'.b.engine))
  {
    var seg := Seg(b, kind, r, serial);
    var i :| 0 <= i < |s.a.wire| && s.a.wire[i] == seg;
    var t := Step(false, Receive(i), 0);
    hide AddClaim, Full, HandleData, Process, Wire, Decodable, Fits, Invariant, Slot, ReportTimers, Apply, EndBy, Reachable,
         RoundReport;
    ReachableOk(mtu, s);
    ReachNext(mtu, s, t);
    SegFits(b, kind, r, serial);
    ProcessWire(s.b.engine, seg, 0);
    HearData(s.b.engine, b, kind, r, serial, claims, if kind == RED_DATA_EORP_CP then |b| else 0, rpt);
    Moves(s, false, Receive(i), 0);
    s' := Apply(s, t);
    Nowhere(s.b.log, HandleData(s.b.engine, seg, 0).delivered);
  }

  // ---- The receiver gives the session up ----

  ghost predicate NoneNumbered(ms: seq<Import>) {
    forall k :: 0 <= k < |ms| && ms[k].active ==> ms[k].session != 1
  }

  ghost predicate OnceNumbered(ms: seq<Import>) {
    forall j, k :: 0 <= j < k < |ms| && ms[j].active && ms[k].active && ms[j].session == 1 ==> ms[k].session != 1
  }

  ghost predicate LastChance(e: Engine) {
    ReportTimers(e.timers) && AsInt32(e.config.maxRetries) == 1
  }

  lemma SlotForgets(e: Engine, i: nat)
    requires i < |e.timers| && LastChance(e) && OnceNumbered(e.imports)
    ensures var f := FireSlot(e, i, LATE);
            && f.sent == [] && f.delivered == [] && LastChance(f.engine) && OnceNumbered(f.engine.imports)
            && |f.engine.timers| == |e.timers| && OnlyCloses(e.imports, f.engine.imports)
            && (forall j :: 0 <= j < |e.timers| && j != i ==> f.engine.timers[j] == e.timers[j])
            && (e.timers[i].active || NoneNumbered(e.imports) ==> NoneNumbered(f.engine.imports))
  {
    hide Resend;
    FireSlotTimers(e, i, LATE);
  }

  /** The sweep that finds a report timer on its last retry closes the session and writes nothing. */
  lemma {:induction false} SweepForgets(e: Engine, i: nat)
    requires LastChance(e) && OnceNumbered(e.imports)
    ensures var f := FireFrom(e, i, LATE);
            && f.sent == [] && f.delivered == [] && ReportTimers(f.engine.timers) && |f.engine.timers| == |e.timers|
            && OnlyCloses(e.imports, f.engine.imports)
            && ((exists j :: i <= j < |e.timers| && e.timers[j].active) || NoneNumbered(e.imports)
                ==> NoneNumbered(f.engine.imports))
    decreases |e.timers| - i
  {
    if i < |e.timers| {
      hide FireSlot, LastChance, OnceNumbered;
      SlotForgets(e, i);
      SweepForgets(FireSlot(e, i, LATE).engine, i + 1);
      assert LastChance(e) ==> ReportTimers(e.timers);
    }
  }

  /** Nothing is left of a session given up: the next segment opens it anew. */
  lemma SlotAnew(e: Engine, f: Engine, claims: Claims, len: nat, rpt: nat)
    requires Slot(e, claims, len, rpt) && OnlyCloses(e.imports, f.imports) && NoneNumbered(f.imports)
    ensures Slot(f, [], 0, 1)
  {
    var k := ImportSlot(e, Header(0, RED_DATA, ALICE, 1, 0, 0));
    assert !f.imports[k].active;
    assert FindImport(f.imports, ALICE, 1) == |f.imports|;
  }

  lemma ForgetSlot(e: Engine, claims: Claims, len: nat, rpt: nat)
    requires Slot(e, claims, len, rpt) && LastChance(e) && OnceNumbered(e.imports) && Ticking(e)
    ensures var f := FireExpired(e, LATE);
            && f.sent == [] && f.delivered == [] && ReportTimers(f.engine.timers) && |f.engine.timers| == |e.timers|
            && Slot(f.engine, [], 0, 1)
  {
    hide Slot, ReportTimers, FireFrom, OnlyCloses, OnceNumbered, NoneNumbered, LastChance;
    SweepForgets(e, 0);
    SlotAnew(e, FireExpired(e, LATE).engine, claims, len, rpt);
  }

  lemma Forget(mtu: nat, s: System, claims: Claims, len: nat, rpt: nat) returns (s': System)
    requires mtu > 0 && Reachable(mtu, s) && Listens(s.b, claims, len, rpt) && Ticking(s.b.engine)
    ensures Reachable(mtu, s') && s'.a == s.a && s'.b.wire == s.b.wire && Listens(s'.b, [], 0, 1)
  {
    var t := Step(false, Expire, LATE);
    hide Invariant, Slot, ReportTimers, Apply, FireExpired, OnceNumbered, Reachable, UniqueImports, Ticking;
    ReachableOk(mtu, s);
    SoleSession(s);
    ReachNext(mtu, s, t);
    var f := FireExpired(s.b.engine, LATE);
    ForgetSlot(s.b.engine, claims, len, rpt);
    Moves(s, false, Expire, LATE);
    s' := Apply(s, t);
    Nowhere(s.b.log, f.delivered);
    Nowhere(s.b.wire, f.sent);
  }

  lemma SoleSession(s: System)
    requires Invariant(s) && UniqueImports(s.b.engine.imports)
    ensures OnceNumbered(s.b.engine.imports)
  {
    hide SlotOk, ExportOk, DataOk, ReportOk, Full;
    var ms := s.b.engine.imports;
    forall j, k | 0 <= j < k < |ms| && ms[j].active && ms[k].active && ms[j].session == 1 ensures ms[k].session != 1 {
      assert ImportOk(Self(s.a), s.b.held, ms[j]) && ImportOk(Self(s.a), s.b.held, ms[k]);
    }
  }

  // ---- The sender ----

  ghost predicate Sends(p: Party, b: seq<byte>, mtu: nat, cp: nat) {
    && Ready(p.engine, 0, b) && p.blocks == map[1 := b]
    && var x := p.engine.exports[0]; x.engine == ALICE && x.session == 1 && x.mtu == mtu && x.nextCp == cp
  }

  lemma SegIs(x: Export, b: seq<byte>, kind: nat, r: Claim, serial: nat)
    requires Sending(x, b) && x.engine == ALICE && x.session == 1 && r.End() <= |b|
    ensures DataSegment(x, kind, r, serial) == Seg(b, kind, r, serial)
  {
    SliceOk(b, x, r);
  }

  /** Every one of these ranges has been written, the last one as a checkpoint of the given kind. */
  ghost predicate Carries(wire: seq<Segment>, b: seq<byte>, ps: seq<Claim>, lastKind: nat, serial: nat)
    requires Within(ps, 0, |b|)
  {
    && (forall i :: 0 <= i < |ps| - 1 ==> Seg(b, RED_DATA, ps[i], 0) in wire)
    && (ps != [] ==> Seg(b, lastKind, ps[|ps| - 1], serial) in wire)
  }

  lemma SegmentsCarry(x: Export, b: seq<byte>, ps: seq<Claim>, lastKind: nat, serial: nat)
    requires Sending(x, b) && x.engine == ALICE && x.session == 1 && Within(ps, 0, |b|)
    ensures Carries(Segments(x, ps, lastKind, serial), b, ps, lastKind, serial)
  {
    hide DataSegment, Seg, Sending;
    var ss := Segments(x, ps, lastKind, serial);
    forall i | 0 <= i < |ps|
      ensures ss[i] == (if i == |ps| - 1 then Seg(b, lastKind, ps[i], serial) else Seg(b, RED_DATA, ps[i], 0))
    {
      SegIs(x, b, lastKind, ps[i], serial);
      SegIs(x, b, RED_DATA, ps[i], 0);
    }
  }

  lemma CarriesMore(a: seq<Segment>, w: seq<Segment>, z: seq<Segment>, b: seq<byte>, ps: seq<Claim>, lastKind: nat, serial: nat)
    requires Within(ps, 0, |b|) && Carries(w, b, ps, lastKind, serial)
    ensures Carries(a + w + z, b, ps, lastKind, serial)
  {
    hide Seg;
  }

  /** The sender hears a report and writes the missing ranges again. */
  lemma Ask(mtu: nat, s: System, b: seq<byte>, claims: Claims, rpt: nat, serial: nat, cp: nat) returns (s': System)
    requires 0 < mtu <= ROUND_MTU && Reachable(mtu, s) && Sends(s.a, b, mtu, cp) && cp < INT64_LIMIT && 0 < |b| <= MAX_BLOCK_SIZE
    requires rpt < INT64_LIMIT && serial < INT64_LIMIT && EndBy(claims, |b|) && !Full(claims, |b|)
    requires RoundReport(BOB, 1, rpt, serial, |b|, claims) in s.b.wire
    ensures Reachable(mtu, s') && s'.b == s.b && Sends(s'.a, b, mtu, cp + 1)
    ensures forall g :: g in s.a.wire ==> g in s'.a.wire
    ensures var ps := Asked(claims, |b|, mtu);
            ps != [] && ToRepeat(claims, ps, |b|) && Carries(s'.a.wire, b, ps, RED_DATA_CP, cp)
  {
    var report := RoundReport(BOB, 1, rpt, serial, |b|, claims);
    var i :| 0 <= i < |s.b.wire| && s.b.wire[i] == report;
    var t := Step(true, Receive(i), 0);
    hide Full, Process, Wire, Decodable, Fits, Invariant, Apply, EndBy, Segments, Asked, Seg, Carries, RoundReport, Reachable,
         ToRepeat;
    ReachableOk(mtu, s);
    ReachNext(mtu, s, t);
    ReportFits(BOB, 1, rpt, serial, |b|, claims);
    ReportIs(BOB, 1, rpt, serial, |b|, claims);
    Answer(s.a.engine, 0, b, report, 0);
    Moves(s, true, Receive(i), 0);
    s' := Apply(s, t);
    var x, ps := s.a.engine.exports[0], Asked(claims, |b|, mtu);
    SegmentsCarry(x, b, ps, RED_DATA_CP, cp);
    var ss := Segments(x, ps, RED_DATA_CP, cp);
    assert s'.a.wire == s.a.wire + ([AckOf(s.a.engine, report)] + ss);
    Joined(s.a.wire, [AckOf(s.a.engine, report)], ss);
    CarriesMore(s.a.wire + [AckOf(s.a.engine, report)], ss, [], b, ps, RED_DATA_CP, cp);
  }

  lemma ReportIs(id: nat, n: nat, rpt: nat, cp: nat, len: nat, claims: Claims)
    ensures var s := RoundReport(id, n, rpt, cp, len, claims);
            s.ReportSeg? && s.hdr.session == n && s.rptSerial == rpt && s.claims == claims && s.upper == len && s.lower == 0
  {
  }

  lemma Joined(a: seq<Segment>, m: seq<Segment>, z: seq<Segment>)
    ensures a + (m + z) == a + m + z + []
  {
  }

  /** The sender hears a report of the whole block and counts the session as completed. */
  lemma Finish(mtu: nat, s: System, b: seq<byte>, claims: Claims, rpt: nat, serial: nat, cp: nat) returns (s': System)
    requires 0 < mtu <= ROUND_MTU && Reachable(mtu, s) && Sends(s.a, b, mtu, cp) && 0 < |b| <= MAX_BLOCK_SIZE
    requires rpt < INT64_LIMIT && serial < INT64_LIMIT && EndBy(claims, |b|) && Full(claims, |b|)
    requires RoundReport(BOB, 1, rpt, serial, |b|, claims) in s.b.wire
    ensures Reachable(mtu, s') && s'.b == s.b && s'.a.blocks == map[1 := b]
    ensures |s'.a.engine.exports| > 0 && s'.a.engine.exports[0].completed && s'.a.engine.exports[0].session == 1
  {
    var report := RoundReport(BOB, 1, rpt, serial, |b|, claims);
    var i :| 0 <= i < |s.b.wire| && s.b.wire[i] == report;
    hide Full, Process, Wire, Decodable, Fits, Invariant, Apply, EndBy, RoundReport, Reachable;
    ReachableOk(mtu, s);
    ReachNext(mtu, s, Step(true, Receive(i), 0));
    FullReportCompletes(s.a.engine, 0, b, BOB, rpt, serial, claims, 0);
    Moves(s, true, Receive(i), 0);
    s' := Apply(s, Step(true, Receive(i), 0));
  }

  // ---- The first transmission ----

  lemma {:induction false} EmitUntilStuckFitting(ss: seq<Segment>)
    requires AllFitting(ss)
    ensures EmitUntilStuck(ss) == ss
  {
    if ss != [] {
      EmitUntilStuckFitting(ss[1..]);
    }
  }

  lemma CellsFit(x: Export, b: seq<byte>, ps: seq<Claim>)
    requires Sending(x, b) && Within(ps, 0, |b|) && NoLongerThan(ps, ROUND_MTU) && Ascending(ps) && |b| <= MAX_BLOCK_SIZE
    requires x.engine == ALICE && x.session == 1
    ensures AllFitting(Segments(x, ps, RED_DATA_EORP_CP, 1))
  {
    hide Fits, Decodable, DataSegment;
    forall i | 0 <= i < |ps|
      ensures Fits(DataSegment(x, RED_DATA_EORP_CP, ps[i], 1), SEGMENT_BUF)
      ensures Fits(DataSegment(x, RED_DATA, ps[i], 0), SEGMENT_BUF)
    {
      DataFits(x, b, RED_DATA_EORP_CP, ps[i], 1);
      DataFits(x, b, RED_DATA, ps[i], 0);
    }
  }

  /** The timer of the first checkpoint, and no other. */
  ghost predicate FirstTimer(ts: seq<Timer>) {
    && ts != [] && ts[0] == Timer(true, CHECKPOINT_TIMER, ALICE, 1, 1, 0, 200_000_000)
    && forall i :: 0 < i < |ts| ==> !ts[i].active
  }

  /** The sender's engine after its first block. */
  lemma FirstBlock(mtu: nat, b: seq<byte>)
    requires 0 < mtu <= ROUND_MTU && 0 < |b| <= MAX_BLOCK_SIZE
    ensures var e := InitialEngine(SenderConfig(mtu), ALICE);
            var f := SendBlock(e, BOB, b, 0);
            var x := OpenedExport(e, BOB, b);
            && CanSend(e, b) && f.sent == Segments(x, Cells(|b|, mtu), RED_DATA_EORP_CP, 1)
            && f.engine.localId == ALICE && f.engine.exports == e.exports[0 := x] && FirstTimer(f.engine.timers)
            && Sending(x, b)
  {
    var e := InitialEngine(SenderConfig(mtu), ALICE);
    var x := OpenedExport(e, BOB, b);
    PaddedBlock(b);
    PiecesExact(0, |b|, mtu);
    hide Padded, Fits, Segments, Pieces;
    CellsFit(x, b, Cells(|b|, mtu));
    EmitUntilStuckFitting(Segments(x, Cells(|b|, mtu), RED_DATA_EORP_CP, 1));
    assert FreeExport(e.exports) == 0;
    assert BlockSegments(e, BOB, b) == Segments(x, Cells(|b|, mtu), RED_DATA_EORP_CP, 1);
    FirstArmed(e, x, b);
  }

  lemma FirstArmed(e: Engine, x: Export, b: seq<byte>)
    requires |b| <= MAX_BLOCK_SIZE && FreeExport(e.exports) == 0 < |e.exports| && x == OpenedExport(e, BOB, b)
    requires e.localId == ALICE && e.nextSession == 1 && e.config.owltMs == 0
    requires |e.timers| > 0 && forall i :: 0 <= i < |e.timers| ==> !e.timers[i].active
    ensures var f := ArmNewest(AfterOpen(e, BOB, b), 0);
            FirstTimer(f.timers) && f.exports == e.exports[0 := x] && f.localId == ALICE
  {
    hide Padded;
    var e1 := AfterOpen(e, BOB, b);
    assert e1.exports[0] == x;
    assert FindOwnExport(e1.exports, ALICE, 1) == 0;
    assert FreeTimer(e.timers) == 0;
  }

  lemma FirstStep(mtu: nat, b: seq<byte>)
    requires mtu > 0 && CanSend(InitialEngine(SenderConfig(mtu), ALICE), b)
    ensures var s' := Apply(Start(mtu), Step(true, Send(BOB, b), 0));
            var f := SendBlock(InitialEngine(SenderConfig(mtu), ALICE), BOB, b, 0);
            && s'.b == Start(mtu).b && s'.a.engine == f.engine && s'.a.wire == f.sent && s'.a.blocks == map[1 := b]
  {
    var f := SendBlock(InitialEngine(SenderConfig(mtu), ALICE), BOB, b, 0);
    hide SendBlock, HeldNow, CanSend;
    assert [] + f.sent == f.sent;
  }

  lemma StartReachable(mtu: nat)
    requires mtu > 0
    ensures Reachable(mtu, Start(mtu)) && ConfigsOk(Start(mtu))
  {
    assert Run(Start(mtu), []) == Start(mtu);
  }

  lemma StartListens(mtu: nat)
    ensures Listens(Start(mtu).b, [], 0, 1)
  {
  }

  lemma NewlyReady(p: Party, e: Engine, b: seq<byte>, mtu: nat)
    requires |b| <= MAX_BLOCK_SIZE && e.localId == ALICE && e.nextSession == 1 && e.config.mtu == mtu && 0 < mtu <= ROUND_MTU
    requires |e.exports| > 0 && p.engine.localId == ALICE && p.engine.exports == e.exports[0 := OpenedExport(e, BOB, b)]
    requires Sending(OpenedExport(e, BOB, b), b) && p.blocks == map[1 := b]
    ensures Sends(p, b, mtu, 2)
  {
    hide Padded, Sending;
    var xs := p.engine.exports;
    assert xs[0] == OpenedExport(e, BOB, b);
    assert FindOwnExport(xs, ALICE, 1) == 0;
  }

  /** The block is sent; nothing has arrived yet. */
  lemma Begin(mtu: nat, b: seq<byte>) returns (s: System)
    requires 0 < mtu <= ROUND_MTU && 0 < |b| <= MAX_BLOCK_SIZE
    ensures Reachable(mtu, s) && Sends(s.a, b, mtu, 2) && Listens(s.b, [], 0, 1) && FirstTimer(s.a.engine.timers)
    ensures Within(Cells(|b|, mtu), 0, |b|) && Carries(s.a.wire, b, Cells(|b|, mtu), RED_DATA_EORP_CP, 1)
  {
    var e, t := InitialEngine(SenderConfig(mtu), ALICE), Step(true, Send(BOB, b), 0);
    var x := OpenedExport(e, BOB, b);
    assert e.localId == ALICE && e.nextSession == 1 && e.config.mtu == mtu && |e.exports| > 0;
    assert x.engine == ALICE && x.session == 1;
    PiecesExact(0, |b|, mtu);
    assert Cells(|b|, mtu) == Pieces(0, |b|, mtu);
    FirstBlock(mtu, b);
    hide *;
    FirstStep(mtu, b);
    StartReachable(mtu);
    StartListens(mtu);
    ReachNext(mtu, Start(mtu), t);
    s := Apply(Start(mtu), t);
    SegmentsCarry(x, b, Cells(|b|, mtu), RED_DATA_EORP_CP, 1);
    NewlyReady(s.a, e, b, mtu);
  }

  // ---- The sender's timer ----

  lemma {:induction false} NothingDue(e: Engine, i: nat, now: int)
    requires forall j :: i <= j < |e.timers| ==> !e.timers[j].active
    ensures FireFrom(e, i, now) == Nothing(e)
    decreases |e.timers| - i
  {
    if i < |e.timers| {
      NothingDue(e, i + 1, now);
    }
  }

  lemma FirstFires(e: Engine, b: seq<byte>, mtu: nat, cp: nat)
    requires Ready(e, 0, b) && FirstTimer(e.timers) && e.config.maxRetries == 2 && |b| <= MAX_BLOCK_SIZE
    requires var x := e.exports[0];
             x.active && x.engine == ALICE && x.session == 1 && x.mtu == mtu && x.nextCp == cp < INT64_LIMIT && |b| > mtu > 0
    ensures var f := FireExpired(e, LATE);
            && f.sent == [Seg(b, RED_DATA_EORP_CP, Claim(|b| - mtu, mtu), cp)]
            && f.engine.localId == e.localId && f.engine.exports == e.exports[0 := e.exports[0].(nextCp := cp + 1)]
  {
    var x, r := e.exports[0], Claim(|b| - mtu, mtu);
    SegIs(x, b, RED_DATA_EORP_CP, r, cp);
    DataFits(x, b, RED_DATA_EORP_CP, r, cp);
    hide Fits, Decodable, DataSegment, Seg, FireFrom;
    FireSlotTimers(e, 0, LATE);
    FirstResends(e, b, mtu, cp);
    var f := FireSlot(e, 0, LATE);
    NothingDue(f.engine, 1, LATE);
    FireHead(e, f);
    Nowhere(f.sent, []);
  }

  lemma FireHead(e: Engine, f: Effect)
    requires |e.timers| > 0 && f == FireSlot(e, 0, LATE) && FireFrom(f.engine, 1, LATE) == Nothing(f.engine)
    ensures FireExpired(e, LATE) == Effect(f.engine, f.sent + [], f.delivered + [])
  {
    hide FireSlot;
  }

  lemma FirstResends(e: Engine, b: seq<byte>, mtu: nat, cp: nat)
    requires Ready(e, 0, b) && FirstTimer(e.timers) && e.config.maxRetries == 2
    requires var x := e.exports[0]; x.active && x.session == 1 && x.mtu == mtu && x.nextCp == cp && |b| > mtu > 0
    ensures var x, f := e.exports[0], FireSlot(e, 0, LATE);
            && f.sent == Emit(DataSegment(x, RED_DATA_EORP_CP, Claim(|b| - mtu, mtu), cp))
            && f.engine.localId == e.localId && f.engine.exports == e.exports[0 := x.(nextCp := cp + 1)]
  {
    hide Fits, DataSegment;
    assert FindExport(e.exports, 1) == 0;
    assert TailRange(e.exports[0], e.config) == Claim(|b| - mtu, mtu);
  }

  /** The sender's timer expires and the tail of the block is sent, marked as its end. */
  lemma Timeout(mtu: nat, s: System, b: seq<byte>) returns (s': System)
    requires 0 < mtu <= ROUND_MTU && Reachable(mtu, s) && Sends(s.a, b, mtu, 2) && FirstTimer(s.a.engine.timers)
    requires mtu < |b| <= MAX_BLOCK_SIZE
    ensures Reachable(mtu, s') && s'.b == s.b && Sends(s'.a, b, mtu, 3)
    ensures s'.a.wire == s.a.wire + [Seg(b, RED_DATA_EORP_CP, Claim(|b| - mtu, mtu), 2)]
  {
    var e := s.a.engine;
    assert e.exports[0].active;
    hide FireExpired, Invariant, Apply, Reachable, Seg;
    ReachableOk(mtu, s);
    ReachNext(mtu, s, Step(true, Expire, LATE));
    FirstFires(e, b, mtu, 2);
    Moves(s, true, Expire, LATE);
    s' := Apply(s, Step(true, Expire, LATE));
    StillReady(e, 0, b, e.exports[0].(nextCp := 3));
  }
}
