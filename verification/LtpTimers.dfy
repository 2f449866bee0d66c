/** Retransmission timers: a bounded budget that every expiry spends and nothing but new traffic refills. */
module LtpTimers {
  import opened LtpState
  import opened LtpSteps

  /** Firings a timer is good for: at least one, even with a retry limit of zero. */
  function Quota(c: Config): (q: int)
    ensures q >= 1
  {
    if AsInt32(c.maxRetries) > 1 then AsInt32(c.maxRetries) else 1
  }

  ghost predicate TimersOk(ts: seq<Timer>, quota: int) {
    forall i :: 0 <= i < |ts| && ts[i].active ==> 0 <= ts[i].retries < quota
  }

  function Budget(t: Timer, quota: int): int {
    if t.active then quota - t.retries else 0
  }

  /** Firings still to come if nothing new is started. */
  function Potential(ts: seq<Timer>, quota: int): int {
    if ts == [] then 0 else Potential(ts[..|ts| - 1], quota) + Budget(ts[|ts| - 1], quota)
  }

  // ---- The budget as a sum ----

  lemma {:induction false} PotentialUpdate(ts: seq<Timer>, i: nat, t: Timer, quota: int)
    requires i < |ts|
    ensures Potential(ts[i := t], quota) == Potential(ts, quota) - Budget(ts[i], quota) + Budget(t, quota)
  {
    var us := ts[i := t];
    var last := |ts| - 1;
    if i < last {
      PotentialUpdate(ts[..last], i, t, quota);
      assert us[..last] == ts[..last][i := t];
    } else {
      assert us[..last] == ts[..last];
    }
  }

  lemma {:induction false} PotentialNatural(ts: seq<Timer>, quota: int)
    requires TimersOk(ts, quota) && quota >= 1
    ensures 0 <= Potential(ts, quota) <= |ts| * quota
    ensures Potential(ts, quota) == 0 ==> forall i :: 0 <= i < |ts| ==> !ts[i].active
  {
    if ts != [] {
      PotentialNatural(ts[..|ts| - 1], quota);
      assert forall i :: 0 <= i < |ts| - 1 ==> ts[..|ts| - 1][i] == ts[i];
    }
  }

  // ---- One expiry ----

  /** What firing does to its own slot. */
  function Fired(t: Timer, c: Config, now: int): Timer {
    if !Expired(t, now) then t
    else if t.retries + 1 >= AsInt32(c.maxRetries) then t.(retries := t.retries + 1, active := false)
    else t.(retries := t.retries + 1, expiry := now + TimerDuration(c))
  }

  lemma FireSlotTimers(e: Engine, i: nat, now: int)
    requires i < |e.timers|
    ensures FireSlot(e, i, now).engine.timers == e.timers[i := Fired(e.timers[i], e.config, now)]
    ensures FireSlot(e, i, now).engine.config == e.config
  {
    GiveUpTimers(e, e.timers[i]);
    ResendTimers(e, e.timers[i]);
  }

  lemma GiveUpTimers(e: Engine, t: Timer)
    ensures GiveUp(e, t).timers == e.timers && GiveUp(e, t).config == e.config
  {
  }

  lemma ResendTimers(e: Engine, t: Timer)
    ensures Resend(e, t).engine.timers == e.timers && Resend(e, t).engine.config == e.config
  {
  }

  /** Each expired slot spends exactly one unit; a slot that has not expired spends nothing. */
  lemma FiredBudget(t: Timer, c: Config, now: int)
    requires t.active ==> 0 <= t.retries < Quota(c)
    ensures var u := Fired(t, c, now);
            && Budget(u, Quota(c)) == Budget(t, Quota(c)) - (if Expired(t, now) then 1 else 0)
            && (u.active ==> t.active && 0 <= u.retries < Quota(c))
  {
  }

  /** Every slot is fired on its own: the others' timers are as they were. */
  lemma {:induction false} FireTimers(e: Engine, i: nat, now: int)
    ensures var f := FireFrom(e, i, now).engine;
            && f.config == e.config && |f.timers| == |e.timers|
            && forall k :: 0 <= k < |e.timers| ==>
                 f.timers[k] == if k < i then e.timers[k] else Fired(e.timers[k], e.config, now)
    decreases |e.timers| - i
  {
    if i < |e.timers| {
      FireSlotTimers(e, i, now);
      FireTimers(FireSlot(e, i, now).engine, i + 1, now);
    }
  }

  lemma {:induction false} FireSpends(e: Engine, i: nat, now: int)
    requires TimersOk(e.timers, Quota(e.config))
    ensures Potential(FireFrom(e, i, now).engine.timers, Quota(e.config))
         == Potential(e.timers, Quota(e.config)) - Due(e.timers, i, now)
    decreases |e.timers| - i
  {
    if i < |e.timers| {
      var q := Quota(e.config);
      var u := Fired(e.timers[i], e.config, now);
      var f := FireSlot(e, i, now).engine;
      FireSlotTimers(e, i, now);
      FiredBudget(e.timers[i], e.config, now);
      PotentialUpdate(e.timers, i, u, q);
      FireSpends(f, i + 1, now);
      DueTail(e.timers, f.timers, i + 1, now);
    }
  }

  lemma {:induction false} DueTail(ts: seq<Timer>, us: seq<Timer>, i: nat, now: int)
    requires |ts| == |us| && forall k :: i <= k < |ts| ==> ts[k] == us[k]
    ensures Due(ts, i, now) == Due(us, i, now)
    decreases |ts| - i
  {
    if i < |ts| {
      DueTail(ts, us, i + 1, now);
    }
  }

  /**
   * A round of expiries spends one unit of the budget for every timer it fires, and starts none: whatever
   * is active afterwards was active before.
   */
  lemma ExpirySpends(e: Engine, now: int)
    requires TimersOk(e.timers, Quota(e.config))
    ensures var f := FireExpired(e, now).engine;
            && Potential(f.timers, Quota(e.config)) == Potential(e.timers, Quota(e.config)) - Due(e.timers, 0, now)
            && TimersOk(f.timers, Quota(e.config)) && |f.timers| == |e.timers|
            && forall k :: 0 <= k < |f.timers| && f.timers[k].active ==> e.timers[k].active
  {
    FireSpends(e, 0, now);
    FireTimers(e, 0, now);
    forall k | 0 <= k < |e.timers|
      ensures var u := Fired(e.timers[k], e.config, now); u.active ==> e.timers[k].active && 0 <= u.retries < Quota(e.config)
    {
      FiredBudget(e.timers[k], e.config, now);
    }
  }

  // ---- Quiescence ----

  /** Rounds of expiry with nothing received, sent or cancelled in between. */
  ghost function Idle(e: Engine, times: seq<int>): Engine {
    if times == [] then e else FireExpired(Idle(e, times[..|times| - 1]), times[|times| - 1]).engine
  }

  ghost function FiredInAll(e: Engine, times: seq<int>): nat {
    if times == [] then 0
    else
      FiredInAll(e, times[..|times| - 1]) + Due(Idle(e, times[..|times| - 1]).timers, 0, times[|times| - 1])
  }

  /** However often the timers are polled, the number of firings is bounded by the budget at the start. */
  lemma {:induction false} BoundedFirings(e: Engine, times: seq<int>)
    requires TimersOk(e.timers, Quota(e.config))
    ensures var f := Idle(e, times);
            && f.config == e.config && TimersOk(f.timers, Quota(e.config)) && |f.timers| == |e.timers|
            && FiredInAll(e, times) + Potential(f.timers, Quota(e.config)) == Potential(e.timers, Quota(e.config))
            && Potential(f.timers, Quota(e.config)) >= 0
    decreases |times|
  {
    if times != [] {
      BoundedFirings(e, times[..|times| - 1]);
      var f := Idle(e, times[..|times| - 1]);
      ExpirySpends(f, times[|times| - 1]);
      FireTimers(f, 0, times[|times| - 1]);
    }
    PotentialNatural(Idle(e, times).timers, Quota(e.config));
  }

  /** Polls spaced at least one timer period apart, the first one late enough for every timer. */
  ghost predicate Spaced(e: Engine, times: seq<int>) {
    && (times != [] ==> forall i :: 0 <= i < |e.timers| && e.timers[i].active ==> e.timers[i].expiry <= times[0])
    && (forall k :: 1 <= k < |times| ==> times[k - 1] + TimerDuration(e.config) <= times[k])
  }

  lemma {:induction false} EveryRoundCounts(e: Engine, times: seq<int>)
    requires TimersOk(e.timers, Quota(e.config)) && Spaced(e, times)
    ensures var f := Idle(e, times);
            && f.config == e.config && |f.timers| == |e.timers|
            && forall i :: 0 <= i < |f.timers| && f.timers[i].active ==>
                 && |times| <= f.timers[i].retries < Quota(e.config)
                 && (times != [] ==> f.timers[i].expiry == times[|times| - 1] + TimerDuration(e.config))
                 && (times == [] ==> f.timers[i] == e.timers[i])
    decreases |times|
  {
    if times != [] {
      var prev, now := times[..|times| - 1], times[|times| - 1];
      var g := Idle(e, prev);
      EveryRoundCounts(e, prev);
      FireTimers(g, 0, now);
      forall i | 0 <= i < |g.timers| && Fired(g.timers[i], g.config, now).active
        ensures g.timers[i].active && Expired(g.timers[i], now)
      {
        if prev != [] {
          assert times[|times| - 2] == prev[|prev| - 1];
        }
      }
    }
  }

  /** After as many such polls as a timer has firings, no timer is left. */
  lemma Quiescent(e: Engine, times: seq<int>)
    requires TimersOk(e.timers, Quota(e.config)) && Spaced(e, times) && |times| >= Quota(e.config)
    ensures forall i :: 0 <= i < |Idle(e, times).timers| ==> !Idle(e, times).timers[i].active
  {
    EveryRoundCounts(e, times);
  }

  // ---- How often a timer fires ----

  /** max_retries times in all, and at least once; once when it does not fit the C int it is compared with. */
  lemma QuotaIs(c: Config)
    ensures var n := c.maxRetries % 0x1_0000_0000; Quota(c) == if 1 < n < 0x8000_0000 then n else 1
  {
  }

  /** Every firing but the last resends and rearms; the last one only stops the timer and writes nothing. */
  lemma LastFiringIsSilent(e: Engine, i: nat, now: int)
    requires i < |e.timers| && Expired(e.timers[i], now) && 0 <= e.timers[i].retries
    ensures var f := FireSlot(e, i, now);
            && |f.engine.timers| == |e.timers| && f.engine.timers[i].retries == e.timers[i].retries + 1
            && (f.engine.timers[i].active <==> e.timers[i].retries + 1 < e.config.maxRetries % 0x1_0000_0000 < 0x8000_0000)
            && (!f.engine.timers[i].active ==> f.sent == [])
  {
    hide Resend, GiveUp;
    FireSlotTimers(e, i, now);
  }

  /** The first open export session of that number. */
  predicate FirstExport(xs: seq<Export>, k: nat, session: nat)
    requires k < |xs|
  {
    xs[k].active && xs[k].session == session && forall i :: 0 <= i < k && xs[i].active ==> xs[i].session != session
  }

  /** The first open import session of that number. */
  predicate FirstImport(ms: seq<Import>, k: nat, session: nat)
    requires k < |ms|
  {
    ms[k].active && ms[k].session == session && forall i :: 0 <= i < k && ms[i].active ==> ms[i].session != session
  }

  /**
   * The last firing of a checkpoint timer closes the export session of its number, that of a report timer the import
   * session, and that of a cancel timer neither: a cancelled session nobody has answered for stays open.
   */
  lemma LastFiringCloses(e: Engine, i: nat, now: int)
    requires i < |e.timers| && Expired(e.timers[i], now) && !FireSlot(e, i, now).engine.timers[i].active
    ensures var t, f := e.timers[i], FireSlot(e, i, now).engine;
            && f == e.(exports := f.exports, imports := f.imports, timers := f.timers)
            && f.timers == e.timers[i := t.(retries := t.retries + 1, active := false)]
            && |f.exports| == |e.exports| && |f.imports| == |e.imports|
            && (forall k :: 0 <= k < |e.exports| ==>
                  f.exports[k] == if t.kind == CHECKPOINT_TIMER && FirstExport(e.exports, k, t.session)
                                  then e.exports[k].(active := false, cancelled := true) else e.exports[k])
            && (forall k :: 0 <= k < |e.imports| ==>
                  f.imports[k] == if t.kind == REPORT_TIMER && FirstImport(e.imports, k, t.session)
                                  then e.imports[k].(active := false) else e.imports[k])
  {
    hide Resend;
    ResendTimers(e, e.timers[i]);
  }
}
