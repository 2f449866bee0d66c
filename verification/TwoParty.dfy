/**
 * Two engines joined by a network that may lose, duplicate and reorder segments at will, but not alter or
 * forge them: a party may receive, at any time and any number of times, the octets of any segment its
 * peer has ever written.
 */
module TwoParty {
  import opened Bytes
  import opened LtpSegment
  import opened LtpState
  import opened LtpSteps

  /**
   * An engine with its history: every segment it wrote, in order; every block it segmented, by session;
   * every delivery it made; and the peer's sessions it has at some time held in full.
   */
  datatype Party = Party(engine: Engine, wire: seq<Segment>, blocks: map<nat, seq<byte>>,
                         log: seq<Delivery>, held: set<nat>)

  datatype System = System(a: Party, b: Party)

  datatype Action =
    | Send(remote: nat, block: seq<byte>)
    | Cancel(session: nat)
    | Receive(index: nat)
    | Expire

  datatype Step = Step(byA: bool, action: Action, now: int)

  /** Some import slot has claimed the whole block of session n and its buffer agrees with it. */
  predicate Holds(imports: seq<Import>, engine: nat, n: nat, block: seq<byte>) {
    exists i :: 0 <= i < |imports| && SlotHolds(imports[i], engine, n, block)
  }

  predicate SlotHolds(m: Import, engine: nat, n: nat, block: seq<byte>) {
    && m.engine == engine && m.session == n && Full(m.claims, |block|)
    && |block| <= MAX_BLOCK_SIZE && m.data[..|block|] == block
  }

  ghost function HeldNow(e: Engine, peer: Party): set<nat> {
    set n | n in peer.blocks && Holds(e.imports, peer.engine.localId, n, peer.blocks[n])
  }

  ghost function Record(p: Party, peer: Party, f: Effect): Party {
    p.(engine := f.engine, wire := p.wire + f.sent, log := p.log + f.delivered, held := p.held + HeldNow(f.engine, peer))
  }

  ghost function Act(p: Party, peer: Party, action: Action, now: int): Party
    requires ConfigOk(p.engine.config)
  {
    match action
    case Send(remote, block) =>
      var q := Record(p, peer, SendBlock(p.engine, remote, block, now));
      if CanSend(p.engine, block) then q.(blocks := p.blocks[p.engine.nextSession := block]) else q
    case Cancel(n) => Record(p, peer, CancelSession(p.engine, n, now))
    case Receive(i) =>
      if i < |peer.wire| then Record(p, peer, Process(p.engine, Wire(peer.wire[i]), now)) else p
    case Expire => Record(p, peer, FireExpired(p.engine, now))
  }

  /** No step of an engine changes its configuration or its identifier. */
  lemma ActKeepsConfig(p: Party, peer: Party, action: Action, now: int)
    requires ConfigOk(p.engine.config)
    ensures var q := Act(p, peer, action, now);
            q.engine.config == p.engine.config && q.engine.localId == p.engine.localId
  {
    match action
    case Send(remote, block) =>
    case Cancel(n) =>
    case Receive(i) =>
      if i < |peer.wire| {
        ProcessKeepsConfig(p.engine, Wire(peer.wire[i]), now);
      }
    case Expire => FireKeepsConfig(p.engine, 0, now);
  }

  ghost predicate ConfigsOk(s: System) {
    ConfigOk(s.a.engine.config) && ConfigOk(s.b.engine.config)
  }

  ghost function Apply(s: System, t: Step): System
    requires ConfigsOk(s)
  {
    if t.byA then s.(a := Act(s.a, s.b, t.action, t.now)) else s.(b := Act(s.b, s.a, t.action, t.now))
  }

  function Started(config: Config, localId: nat): Party {
    Party(InitialEngine(config, localId), [], map[], [], {})
  }

  /** The state after a sequence of steps. */
  ghost function Run(s: System, steps: seq<Step>): (r: System)
    requires ConfigsOk(s)
    ensures ConfigsOk(r)
  {
    if steps == [] then s
    else
      var r := Run(s, steps[..|steps| - 1]);
      var t := steps[|steps| - 1];
      ActKeepsConfig(r.a, r.b, t.action, t.now);
      ActKeepsConfig(r.b, r.a, t.action, t.now);
      Apply(r, t)
  }
}
