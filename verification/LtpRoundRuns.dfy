/** The rounds start from every reachable state of the two-party system. */
module LtpRoundRuns {
  import opened LtpSegment
  import opened LtpState
  import opened LtpSteps
  import opened LtpDiscipline
  import opened TwoParty
  import opened TwoPartyInvariant
  import opened TwoPartySafety
  import opened LtpRound

  /** A party's engine and what it has written. */
  ghost function Written(p: Party): History {
    History(p.engine, p.wire)
  }

  /** Each action is one of the inputs an engine can be given. */
  lemma ActKeeps(p: Party, q: Party, action: Action, now: int)
    requires ConfigOk(p.engine.config) && Disciplined(Written(p))
    ensures Disciplined(Written(Act(p, q, action, now)))
  {
    hide Disciplined, SendBlock, Process, CancelSession, FireExpired, CanSend, HeldNow;
    match action
    case Send(remote, block) => RespondKeeps(Written(p), Submit(remote, block), now);
    case Cancel(n) => RespondKeeps(Written(p), Abort(n), now);
    case Receive(i) => if i < |q.wire| { RespondKeeps(Written(p), Octets(Wire(q.wire[i])), now); }
    case Expire => RespondKeeps(Written(p), Tick, now);
  }

  /** So both parties keep their sessions apart over every run. */
  lemma {:induction false} RunDisciplined(s: System, steps: seq<Step>, isA: bool)
    requires ConfigsOk(s) && Disciplined(Written(Side(s, isA)))
    ensures Disciplined(Written(Side(Run(s, steps), isA)))
  {
    if steps != [] {
      hide Disciplined, Apply, Act, Written;
      var r, t := Run(s, steps[..|steps| - 1]), steps[|steps| - 1];
      RunDisciplined(s, steps[..|steps| - 1], isA);
      LastStep(s, steps);
      StepSide(r, t, isA);
      if t.byA == isA {
        ActKeeps(Side(r, isA), Side(r, !isA), t.action, t.now);
      }
    }
  }

  /** In a good state, an active export session is ready to answer reports. */
  lemma ExportReady(v: View, held: set<nat>, log: seq<Delivery>, e: Engine, j: nat)
    requires ViewOk(v) && j < |e.exports| && ExportOk(v, held, log, e.exports[j]) && e.exports[j].active
    requires UniqueExports(e.exports, e.nextSession) && e.localId == v.id && v.mtu <= ROUND_MTU
    ensures e.exports[j].session in v.blocks && Ready(e, j, v.blocks[e.exports[j].session])
    ensures e.exports[j].engine == v.id
  {
  }

  /** In a good state, an active import session that knows the block's length is open for it. */
  lemma ImportOpen(v: View, held: set<nat>, e: Engine, k: nat, x: Export)
    requires ViewOk(v) && k < |e.imports| && ImportOk(v, held, e.imports[k]) && UniqueImports(e.imports)
    requires e.imports[k].active && e.imports[k].len > 0 && x.engine == v.id && x.session == e.imports[k].session
    ensures x.session in v.blocks && Open(e, k, x, v.blocks[x.session])
  {
    hide Full;
  }

  /**
   * In every reachable state: an open import session that knows where its block ends, the peer's open export
   * session of that number, and a report of the one received by the other; two rounds at most, and the block
   * is delivered, once.
   */
  lemma ReachableRounds(c: Config, id: nat, d: Config, id': nat, steps: seq<Step>, isA: bool, j: nat, k: nat,
                        report: Segment, now: int, second: int, later: int)
    requires ConfigOk(c) && ConfigOk(d) && (if isA then c else d).mtu <= ROUND_MTU
    requires var s := Run(Started2(c, id, d, id'), steps);
             var p, q := Side(s, isA).engine, Side(s, !isA).engine;
             && j < |p.exports| && p.exports[j].active
             && k < |q.imports| && q.imports[k].active && q.imports[k].len > 0
             && q.imports[k].session == p.exports[j].session
             && Reports(q, k, report) && Numbered(p, p.exports[j], q, q.imports[k], 2)
    ensures var s := Run(Started2(c, id, d, id'), steps);
            var p, q := Side(s, isA).engine, Side(s, !isA).engine;
            var n := p.exports[j].session;
            && n in Side(s, isA).blocks && p.exports[j].mtu > 0
            && DeliversInTwo(p, q, j, k, Side(s, isA).blocks[n], report, now, second, later)
  {
    var s0 := Started2(c, id, d, id');
    var s := Run(s0, steps);
    StartedOk(c, id, d, id');
    StartedOk(d, id', c, id);
    RunInvariant(s0, steps);
    SideOk(s, isA);
    SideOk(s, !isA);
    StartedApart(c, id, d, id', isA);
    StartedApart(c, id, d, id', !isA);
    RunDisciplined(s0, steps, isA);
    RunDisciplined(s0, steps, !isA);
    SameIdentity(s0, steps, isA);
    var p, q := Side(s, isA), Side(s, !isA);
    ExportReady(Self(p), q.held, q.log, p.engine, j);
    ImportOpen(Self(p), q.held, q.engine, k, p.engine.exports[j]);
    TwoRoundsDeliver(p.engine, q.engine, j, k, p.blocks[p.engine.exports[j].session], report, now, second, later);
  }

  lemma StartedApart(c: Config, id: nat, d: Config, id': nat, isA: bool)
    ensures Disciplined(Written(Side(Started2(c, id, d, id'), isA)))
  {
    StartsDisciplined(c, id);
    StartsDisciplined(d, id');
  }
}
