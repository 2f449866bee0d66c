/** What the detector makes of any bits at all between two flags, whoever sent them. */
module BetweenFlags {
  import opened BitWords
  import opened Nrzi
  import opened FrameDetector
  import opened FrameRoundTrip

  /** After a flag, the bits u: eight of them from position i on, the flag's own counted, make a flag. */
  predicate FlagAt(u: seq<bool>, i: nat)
    requires i <= |u|
  {
    (Flag() + u)[i..i + 8] == Flag()
  }

  /** No further flag, at any alignment. */
  predicate Unbroken(u: seq<bool>) {
    forall i :: 1 <= i <= |u| ==> !FlagAt(u, i)
  }

  predicate SevenOnes(u: seq<bool>, i: nat)
    requires i + 7 <= |u|
  {
    forall j :: i <= j < i + 7 ==> u[j]
  }

  /** Nothing to abort a frame: it fits the buffer, and no bit follows seven ones in a row. */
  predicate Kept(u: seq<bool>) {
    |u| <= MAX_FRAME_BITS && forall i :: 0 <= i < |u| - 7 ==> !SevenOnes(u, i)
  }

  /** The register once the bits are in. */
  function Register(u: seq<bool>): (w: seq<bool>)
    ensures |w| == 8
  {
    (Flag() + u)[|u|..]
  }

  lemma RegisterStep(v: seq<bool>, b: bool)
    ensures Register(v + [b]) == Register(v)[1..] + [b]
  {
    assert Flag() + (v + [b]) == Flag() + v + [b];
  }

  lemma RegisterFlag(u: seq<bool>)
    ensures FlagAt(u, |u|) <==> Register(u) == Flag()
  {
  }

  /** The oldest seven bits in the register are ones iff the bits before the last end with seven ones. */
  lemma RegisterAborts(u: seq<bool>)
    requires u != []
    ensures Aborts(Register(u)) <==> |u| >= 8 && SevenOnes(u, |u| - 8)
  {
    var w := Register(u);
    if |u| < 8 {
      assert w[7 - |u|] == Flag()[7];
    } else {
      assert forall i :: 0 <= i < 8 ==> w[i] == u[|u| - 8 + i];
      if Aborts(w) {
        assert forall j :: |u| - 8 <= j < |u| - 1 ==> u[j] == w[j - (|u| - 8)];
      }
    }
  }

  lemma KeptStep(v: seq<bool>, b: bool)
    ensures var u := v + [b];
            Kept(u) <==> Kept(v) && |v| < MAX_FRAME_BITS && !(|u| >= 8 && SevenOnes(u, |u| - 8))
  {
    var u := v + [b];
    assert forall i :: 0 <= i < |v| ==> u[i] == v[i];
    if Kept(u) {
      forall i | 0 <= i < |v| - 7 ensures !SevenOnes(v, i) {
        assert !SevenOnes(u, i);
      }
    } else if Kept(v) && |v| < MAX_FRAME_BITS {
      var i :| 0 <= i < |u| - 7 && SevenOnes(u, i);
      assert i < |v| - 7 ==> SevenOnes(v, i);
    }
  }

  lemma UnbrokenPrefix(v: seq<bool>, b: bool)
    requires Unbroken(v + [b])
    ensures Unbroken(v)
  {
    var u := v + [b];
    forall i | 1 <= i <= |v| ensures !FlagAt(v, i) {
      assert !FlagAt(u, i);
      assert Flag() + u == Flag() + v + [b];
    }
  }

  /** What the detector holds: the bits, or nothing and back to hunting. */
  function Holding(prev: bool, u: seq<bool>): Detector {
    if Kept(u) then Detector(InFrame, Register(u), u, prev) else Detector(Hunt, Register(u), [], prev)
  }

  /** From a flag on: the bits are gathered while they are kept, and dropped for good once they are not. */
  lemma {:induction false} Between(prev: bool, u: seq<bool>)
    requires u != [] && Unbroken(u)
    ensures RunData(Locked(prev), u) == Fed(Holding(prev, u), [])
    decreases |u|
  {
    var v, b := u[..|u| - 1], u[|u| - 1];
    assert u == v + [b];
    assert !FlagAt(u, |u|);
    hide *;
    RegisterFlag(u);
    if v == [] {
      FirstHeld(prev, b);
      RunOne(Locked(prev), b);
    } else {
      UnbrokenPrefix(v, b);
      Between(prev, v);
      HoldingStep(prev, v, b);
      RunOne(Holding(prev, v), b);
      Chain(Locked(prev), v, Holding(prev, v), [b], Holding(prev, u), [], []);
    }
  }

  lemma FirstHeld(prev: bool, b: bool)
    requires Register([b]) != Flag()
    ensures FeedData(Locked(prev), b) == Fed(Holding(prev, [b]), [])
  {
    assert Register([]) == Flag();
    RegisterStep([], b);
    assert [] + [b] == [b];
  }

  lemma HoldingStep(prev: bool, v: seq<bool>, b: bool)
    requires v != [] && Register(v + [b]) != Flag()
    ensures FeedData(Holding(prev, v), b) == Fed(Holding(prev, v + [b]), [])
  {
    RegisterStep(v, b);
    RegisterAborts(v + [b]);
    KeptStep(v, b);
  }

  /** What a run between two flags comes to. */
  function Outcome(u: seq<bool>): seq<seq<octet>> {
    if Kept(u) && |u| >= 7 then Event(FrameOf(Destuff(u[..|u| - 7], 0))) else []
  }

  lemma ClosingStep(prev: bool, u: seq<bool>, b: bool)
    requires Register(u + [b]) == Flag()
    ensures FeedData(Holding(prev, u), b) == Fed(Locked(prev), Outcome(u))
  {
    hide Kept, Register;
    RegisterStep(u, b);
  }

  /**
   * Between two flags, any bits at all: what is before the last seven bits, which belong to the flag that
   * closes the run, is destuffed and tested as a frame once, unless something aborted it. Then nothing comes out.
   */
  lemma ClosedByFlag(prev: bool, u: seq<bool>, b: bool)
    requires u != [] && Unbroken(u) && FlagAt(u + [b], |u| + 1)
    ensures RunData(Locked(prev), u + [b])
         == Fed(Locked(prev), if Kept(u) && |u| >= 7 then Event(FrameOf(Destuff(u[..|u| - 7], 0))) else [])
  {
    assert Outcome(u) == if Kept(u) && |u| >= 7 then Event(FrameOf(Destuff(u[..|u| - 7], 0))) else [];
    hide *;
    Between(prev, u);
    RegisterFlag(u + [b]);
    ClosingStep(prev, u, b);
    RunOne(Holding(prev, u), b);
    Chain(Locked(prev), u, Holding(prev, u), [b], Locked(prev), [], Outcome(u));
    NoEvents(Outcome(u));
  }
}
