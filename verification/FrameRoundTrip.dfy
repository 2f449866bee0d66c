/** What nrzi.c sends, the detector of afsk_demod.c receives: over whole runs of levels, from any state. */
module FrameRoundTrip {
  import opened BitWords
  import opened Bytes
  import opened Sequences
  import opened Fcs
  import opened Nrzi
  import opened FrameDetector

  // ---- Runs ----

  function RunData(d: Detector, bits: seq<bool>): (f: Fed)
    requires Sound(d)
    ensures Sound(f.dec)
    decreases |bits|
  {
    if bits == [] then Fed(d, [])
    else
      var f := FeedData(d, bits[0]);
      var g := RunData(f.dec, bits[1..]);
      Fed(g.dec, f.events + g.events)
  }

  function RunLevels(d: Detector, levels: seq<bool>): (f: Fed)
    requires Sound(d)
    ensures Sound(f.dec)
    decreases |levels|
  {
    if levels == [] then Fed(d, [])
    else
      var f := FeedLevel(d, levels[0]);
      var g := RunLevels(f.dec, levels[1..]);
      Fed(g.dec, f.events + g.events)
  }

  lemma ConsAppend(a: seq<bool>, b: seq<bool>)
    requires a != []
    ensures a + b == [a[0]] + (a[1..] + b) && a == [a[0]] + a[1..]
    ensures (a + b)[0] == a[0] && (a + b)[1..] == a[1..] + b
  {
  }

  lemma NoBits(b: seq<bool>)
    ensures [] + b == b
  {
  }

  lemma NoEvents(b: seq<seq<octet>>)
    ensures [] + b == b
  {
  }

  lemma RunCons(d: Detector, bit: bool, rest: seq<bool>)
    requires Sound(d)
    ensures var f := FeedData(d, bit);
            var g := RunData(f.dec, rest);
            RunData(d, [bit] + rest) == Fed(g.dec, f.events + g.events)
  {
    assert ([bit] + rest)[1..] == rest;
  }

  lemma {:induction false} RunAppend(d: Detector, a: seq<bool>, b: seq<bool>)
    requires Sound(d)
    ensures var f := RunData(d, a);
            var g := RunData(f.dec, b);
            RunData(d, a + b) == Fed(g.dec, f.events + g.events)
    decreases |a|
  {
    if a == [] {
      NoBits(b);
      NoEvents(RunData(d, b).events);
    } else {
      var e := FeedData(d, a[0]).dec;
      RunAppend(e, a[1..], b);
      RunCons(d, a[0], a[1..] + b);
      ConsAppend(a, b);
      Assoc(FeedData(d, a[0]).events, RunData(e, a[1..]).events, RunData(RunData(e, a[1..]).dec, b).events);
    }
  }

  lemma Chain(d: Detector, a: seq<bool>, e: Detector, b: seq<bool>, f: Detector,
              ev: seq<seq<octet>>, ew: seq<seq<octet>>)
    requires Sound(d) && Sound(e) && RunData(d, a) == Fed(e, ev) && RunData(e, b) == Fed(f, ew)
    ensures RunData(d, a + b) == Fed(f, ev + ew)
  {
    RunAppend(d, a, b);
  }

  /** The remembered level plays no part once levels are decoded. */
  lemma StepIgnoresPrev(d: Detector, bit: bool, p: bool)
    requires Sound(d)
    ensures var f := FeedData(d, bit); FeedData(d.(prev := p), bit) == Fed(f.dec.(prev := p), f.events)
  {
  }

  lemma {:induction false} RunIgnoresPrev(d: Detector, bits: seq<bool>, p: bool)
    requires Sound(d)
    ensures var f := RunData(d, bits); RunData(d.(prev := p), bits) == Fed(f.dec.(prev := p), f.events)
    decreases |bits|
  {
    if bits != [] {
      StepIgnoresPrev(d, bits[0], p);
      RunIgnoresPrev(FeedData(d, bits[0]).dec, bits[1..], p);
    }
  }

  function Last(levels: seq<bool>, prev: bool): bool {
    if levels == [] then prev else levels[|levels| - 1]
  }

  /** Feeding levels is feeding the bits they decode to. */
  lemma {:induction false} LevelsAreData(d: Detector, levels: seq<bool>)
    requires Sound(d)
    ensures var f := RunData(d, Data(levels, d.prev));
            RunLevels(d, levels) == Fed(f.dec.(prev := Last(levels, d.prev)), f.events)
    decreases |levels|
  {
    if levels != [] {
      var bit := levels[0] == d.prev;
      var f := FeedLevel(d, levels[0]);
      StepIgnoresPrev(d, bit, levels[0]);
      LevelsAreData(f.dec, levels[1..]);
      RunIgnoresPrev(FeedData(d, bit).dec, Data(levels[1..], levels[0]), levels[0]);
      assert Data(levels, d.prev)[1..] == Data(levels[1..], levels[0]);
      assert |levels| > 1 ==> levels[1..][|levels| - 2] == levels[|levels| - 1];
    }
  }

  // ---- Flags ----

  /** The state after a complete flag. */
  function Locked(prev: bool): Detector {
    Detector(Sync, Flag(), [], prev)
  }

  lemma WindowMoves(w: seq<bool>, bits: seq<bool>)
    requires |w| == 8 && 0 < |bits| <= 8
    ensures (w[1..] + [bits[0]])[|bits| - 1..] + bits[1..] == w[|bits|..] + bits
  {
  }

  lemma {:induction false} WindowAfter(d: Detector, bits: seq<bool>)
    requires Sound(d) && |bits| <= 8
    ensures var f := RunData(d, bits).dec; f.window == d.window[|bits|..] + bits && f.prev == d.prev
    decreases |bits|
  {
    hide FrameOf, Destuff, Aborts;
    if bits != [] {
      WindowAfter(FeedData(d, bits[0]).dec, bits[1..]);
      WindowMoves(d.window, bits);
    }
  }

  /** A flag up to its last bit. */
  function UpToFlag(): seq<bool> {
    [false, true, true, true, true, true, true]
  }

  lemma FlagParts()
    ensures Flag() == UpToFlag() + [false]
  {
  }

  lemma WindowFlag(w: seq<bool>, v: seq<bool>)
    requires |w| == 8 && v == w[7..] + UpToFlag()
    ensures v[1..] + [false] == Flag()
  {
  }

  /** Any eight bits that make a flag lock the detector, whatever it was doing. */
  lemma FlagLocks(d: Detector)
    requires Sound(d)
    ensures RunData(d, Flag()).dec == Locked(d.prev)
  {
    FlagParts();
    RunAppend(d, UpToFlag(), [false]);
    WindowAfter(d, UpToFlag());
    var e := RunData(d, UpToFlag()).dec;
    WindowFlag(d.window, e.window);
    RunOne(e, false);
  }

  lemma RunOne(d: Detector, bit: bool)
    requires Sound(d)
    ensures RunData(d, [bit]) == FeedData(d, bit)
  {
    assert FeedData(d, bit).events + [] == FeedData(d, bit).events;
  }

  /** Too few bits since the last flag to make a frame. */
  lemma {:induction false} FewBits(d: Detector, bits: seq<bool>)
    requires Sound(d) && |d.bits| + |bits| <= 128
    ensures RunData(d, bits).events == []
    decreases |bits|
  {
    if bits != [] {
      FewBits(FeedData(d, bits[0]).dec, bits[1..]);
    }
  }

  lemma OneMoreFlag(prev: bool)
    ensures RunData(Locked(prev), Flag()) == Fed(Locked(prev), [])
  {
    FlagLocks(Locked(prev));
    FewBits(Locked(prev), Flag());
  }

  lemma {:induction false} StaysPut(d: Detector, u: seq<bool>, n: nat)
    requires Sound(d) && RunData(d, u) == Fed(d, [])
    ensures RunData(d, Times(u, n)) == Fed(d, [])
    decreases n
  {
    if n > 0 {
      StaysPut(d, u, n - 1);
      QuietChain(d, u, Times(u, n - 1));
    }
  }

  lemma QuietChain(d: Detector, a: seq<bool>, b: seq<bool>)
    requires Sound(d) && RunData(d, a) == Fed(d, []) && RunData(d, b) == Fed(d, [])
    ensures RunData(d, a + b) == Fed(d, [])
  {
    Chain(d, a, d, b, d, [], []);
  }

  lemma FlagsIdle(n: nat, prev: bool)
    ensures RunData(Locked(prev), Flags(n)) == Fed(Locked(prev), [])
  {
    OneMoreFlag(prev);
    StaysPut(Locked(prev), Flag(), n);
  }

  // ---- Frame content ----

  /** The newest k bits of the register are ones and the one before them is a zero. */
  predicate Tracks(window: seq<bool>, k: nat) {
    |window| == 8 && k <= 7 && !window[7 - k] && forall i :: 7 - k < i < 8 ==> window[i]
  }

  /** Never more than six ones in a row, and six not followed by a zero: no flag is completed. */
  predicate Quiet(bits: seq<bool>, k: nat)
    decreases |bits|
  {
    k <= 6 && (bits == [] || ((bits[0] || k < 6) && Quiet(bits[1..], if bits[0] then k + 1 else 0)))
  }

  /** In a frame, a bit that completes no flag is gathered. */
  lemma QuietStep(d: Detector, bit: bool, k: nat)
    requires Sound(d) && Tracks(d.window, k) && k <= 6 && (bit || k < 6)
    ensures var w := d.window[1..] + [bit]; w != Flag() && !Aborts(w) && Tracks(w, if bit then k + 1 else 0)
  {
    var w := d.window[1..] + [bit];
    assert w[7] == bit && forall i :: 0 <= i < 7 ==> w[i] == d.window[i + 1];
    if k < 7 {
      assert k <= 6 ==> !w[6 - k];
    }
    if !bit {
      assert k < 6 && !w[6 - k] && Flag()[6];
      assert k == 0 ==> w[6] != Flag()[6];
      assert k > 0 ==> w[6 - k] != Flag()[6 - k];
    }
  }

  lemma {:induction false} QuietRun(d: Detector, bits: seq<bool>, k: nat)
    requires Sound(d) && d.mode == InFrame && Tracks(d.window, k) && Quiet(bits, k)
    requires |d.bits| + |bits| <= MAX_FRAME_BITS
    ensures var f := RunData(d, bits);
            && f == Fed(d.(window := f.dec.window, bits := d.bits + bits), [])
            && Tracks(f.dec.window, EndRun(bits, k))
    decreases |bits|
  {
    if bits == [] {
      assert d.bits + bits == d.bits;
    } else {
      QuietStep(d, bits[0], k);
      var e := FeedData(d, bits[0]).dec;
      QuietRun(e, bits[1..], if bits[0] then k + 1 else 0);
      ConsAppend(bits, []);
      Assoc(d.bits, [bits[0]], bits[1..]);
    }
  }

  lemma {:induction false} QuietContent(bits: seq<bool>, k: nat)
    requires Calm(bits, k) && EndRun(bits, k) <= 5
    ensures Quiet(bits + UpToFlag(), k) && EndRun(bits + UpToFlag(), k) == 6
    decreases |bits|
  {
    if bits == [] {
      assert bits + UpToFlag() == UpToFlag();
      QuietFlag(k);
    } else {
      QuietContent(bits[1..], if bits[0] then k + 1 else 0);
      assert (bits + UpToFlag())[1..] == bits[1..] + UpToFlag();
    }
  }

  lemma {:induction false} OnesQuiet(n: nat, k: nat)
    requires k + n == 6
    ensures var t := seq(n, _ => true); Quiet(t, k) && EndRun(t, k) == 6
    decreases n
  {
    if n > 0 {
      OnesQuiet(n - 1, k + 1);
      assert seq(n, _ => true)[1..] == seq(n - 1, _ => true);
    }
  }

  lemma QuietFlag(k: nat)
    requires k <= 5
    ensures Quiet(UpToFlag(), k) && EndRun(UpToFlag(), k) == 6
  {
    OnesQuiet(6, 0);
    assert UpToFlag()[1..] == seq(6, _ => true);
  }

  /** From a flag, the first bit of anything but a flag opens a frame. */
  lemma FirstBit(prev: bool, bit: bool)
    ensures var f := FeedData(Locked(prev), bit);
            && f == Fed(Detector(InFrame, f.dec.window, [bit], prev), [])
            && Tracks(f.dec.window, if bit then 1 else 0)
  {
    QuietStep(Locked(prev), bit, 0);
  }

  /** Content without a run of six ones, then a flag: the content is destuffed and tested as a frame. */
  lemma ContentRun(prev: bool, content: seq<bool>)
    requires content != [] && Calm(content, 0) && EndRun(content, 0) <= 5 && |content| + 7 <= MAX_FRAME_BITS
    ensures RunData(Locked(prev), content + Flag()) == Fed(Locked(prev), Event(FrameOf(Destuff(content, 0))))
  {
    var all := content + UpToFlag();
    FlagParts();
    Assoc(content, UpToFlag(), [false]);
    QuietContent(content, 0);
    Gathered(prev, all);
    var e := RunData(Locked(prev), all).dec;
    ClosingBit(e, content);
    RunOne(e, false);
    Chain(Locked(prev), all, e, [false], Locked(prev), [], Event(FrameOf(Destuff(content, 0))));
    NoEvents(Event(FrameOf(Destuff(content, 0))));
  }

  lemma Gathered(prev: bool, all: seq<bool>)
    requires all != [] && Quiet(all, 0) && |all| <= MAX_FRAME_BITS
    ensures var f := RunData(Locked(prev), all);
            && f == Fed(Detector(InFrame, f.dec.window, all, prev), [])
            && Tracks(f.dec.window, EndRun(all, 0))
  {
    FirstBit(prev, all[0]);
    var e := FeedData(Locked(prev), all[0]).dec;
    QuietRun(e, all[1..], if all[0] then 1 else 0);
    RunOne(Locked(prev), all[0]);
    Chain(Locked(prev), [all[0]], e, all[1..], RunData(e, all[1..]).dec, [], []);
    ConsAppend(all, []);
  }

  lemma ClosingBit(e: Detector, content: seq<bool>)
    requires Sound(e) && e.mode == InFrame && e.bits == content + UpToFlag() && Tracks(e.window, 6)
    ensures FeedData(e, false) == Fed(Locked(e.prev), Event(FrameOf(Destuff(content, 0))))
  {
    assert e.window[1..] + [false] == Flag();
    assert e.bits[..|e.bits| - 7] == content;
  }

  // ---- The frame that goes out ----

  /** The low five bits of an octet kept, the high three set. */
  predicate ReservedSet(b: octet, c: octet) {
    c & 0x1F == b & 0x1F && c & 0xE0 == 0xE0
  }

  /** g is the frame, octet for octet, but for the reserved bits of its two SSID octets, which are set. */
  predicate SentAs(frame: seq<octet>, g: seq<octet>)
    requires |frame| >= 14
  {
    && |g| == |frame| && (forall i :: 0 <= i < |frame| && i != 6 && i != 13 ==> g[i] == frame[i])
    && ReservedSet(frame[6], g[6]) && ReservedSet(frame[13], g[13])
  }

  lemma OctetFixed(b: octet)
    ensures ReservedSet(b, FixOctet(b))
  {
  }

  lemma OneFixed(b: octet, c: octet)
    requires ReservedSet(b, c)
    ensures c == FixOctet(b)
  {
  }

  /** The octets transmitted are those, and no others are. */
  lemma FixedIs(frame: seq<octet>, g: seq<octet>)
    requires |frame| >= 14
    ensures SentAs(frame, g) <==> g == FixSsids(frame)
  {
    OctetFixed(frame[6]);
    OctetFixed(frame[13]);
    if SentAs(frame, g) {
      OneFixed(frame[6], g[6]);
      OneFixed(frame[13], g[13]);
    }
    hide ReservedSet, FixOctet;
  }

  // ---- A transmission ----

  lemma ContentIsFrame(frame: seq<octet>)
    requires Sendable(frame)
    ensures FrameOf(Content(frame)) == Some(FixSsids(frame))
  {
    var fixed := FixSsids(frame);
    var w := Content(frame);
    assert w[..8 * (|frame| + 2)] == w;
    assert w[..|w| - 16] == Bits(fixed) && w[|w| - 16..] == CheckBits(Bits(fixed));
    OctetsOfBits(fixed);
  }

  /** From a flag: the content of a frame, and the first of its closing flags, deliver it. */
  lemma FrameRun(prev: bool, frame: seq<octet>)
    requires Sendable(frame)
    ensures RunData(Locked(prev), Stuff(Content(frame), 0) + Flag()) == Fed(Locked(prev), [FixSsids(frame)])
  {
    var c := Content(frame);
    StuffShape(c, 0);
    BitstreamFits(frame);
    ContentRun(prev, Stuff(c, 0));
    DestuffStuff(c, 0);
    ContentIsFrame(frame);
  }

  /** Two preamble flags, of which the first may be misread in its first bit, and then the rest. */
  lemma StreamRun(d: Detector, lead: seq<bool>, frame: seq<octet>)
    requires Sound(d) && Sendable(frame) && |lead| == 8
    ensures RunData(d, lead + (Flag() + (Flags(78) + (Stuff(Content(frame), 0) + Flag() + Flags(2)))))
         == Fed(Locked(d.prev), RunData(d, lead + Flag()).events + [FixSsids(frame)])
  {
    FrameRun(d.prev, frame);
    FlagsIdle(2, d.prev);
    FlagsIdle(78, d.prev);
    LeadLocks(d, lead);
    Assembled(d, lead + Flag(), Locked(d.prev), Flags(78), Stuff(Content(frame), 0) + Flag(), Flags(2),
              RunData(d, lead + Flag()).events, [FixSsids(frame)]);
    Assoc(lead, Flag(), Flags(78) + (Stuff(Content(frame), 0) + Flag() + Flags(2)));
  }

  lemma Assembled(d: Detector, lead: seq<bool>, at: Detector, idle: seq<bool>, content: seq<bool>, after: seq<bool>,
                  before: seq<seq<octet>>, ev: seq<seq<octet>>)
    requires Sound(d) && Sound(at) && RunData(d, lead) == Fed(at, before) && RunData(at, idle) == Fed(at, [])
    requires RunData(at, content) == Fed(at, ev) && RunData(at, after) == Fed(at, [])
    ensures RunData(d, lead + (idle + (content + after))) == Fed(at, before + ev)
  {
    Chain(at, content, at, after, at, ev, []);
    Chain(at, idle, at, content + after, at, [], ev + []);
    Chain(d, lead, at, idle + (content + after), at, before, [] + (ev + []));
    assert [] + (ev + []) == ev;
  }

  lemma LeadLocks(d: Detector, lead: seq<bool>)
    requires Sound(d) && |lead| == 8
    ensures RunData(d, lead + Flag()).dec == Locked(d.prev)
  {
    RunAppend(d, lead, Flag());
    KeepsPrev(d, lead);
    FlagLocks(RunData(d, lead).dec);
  }

  lemma {:induction false} KeepsPrev(d: Detector, bits: seq<bool>)
    requires Sound(d)
    ensures RunData(d, bits).dec.prev == d.prev
    decreases |bits|
  {
    if bits != [] {
      KeepsPrev(FeedData(d, bits[0]).dec, bits[1..]);
    }
  }

  /** What a receiver that starts from the wrong level reads: the stream with its first bit wrong. */
  function Misread(frame: seq<octet>, first: bool): seq<bool>
    requires Sendable(frame)
  {
    [first] + Bitstream(frame)[1..]
  }

  lemma MisreadShape(frame: seq<octet>, first: bool)
    requires Sendable(frame)
    ensures Misread(frame, first)
         == ([first] + Flag()[1..]) + (Flag() + (Flags(78) + (Stuff(Content(frame), 0) + Flag() + Flags(2))))
  {
    OneFlagFirst(80);
    OneFlagFirst(79);
    OneFlagFirst(3);
    Regroup(Flag(), Flags(78), Stuff(Content(frame), 0), Flags(2));
    TailOf(Flag(), Flag() + (Flags(78) + (Stuff(Content(frame), 0) + Flag() + Flags(2))), first);
  }

  lemma OneFlagFirst(n: nat)
    requires n > 0
    ensures Flags(n) == Flag() + Flags(n - 1)
  {
  }

  lemma Regroup(f: seq<bool>, g: seq<bool>, s: seq<bool>, h: seq<bool>)
    ensures (f + (f + g)) + s + (f + h) == f + (f + (g + (s + f + h)))
  {
  }

  lemma TailOf(a: seq<bool>, b: seq<bool>, first: bool)
    requires a != []
    ensures [first] + (a + b)[1..] == ([first] + a[1..]) + b
  {
  }

  /** The first sixteen levels' worth of a transmission: all that earlier reception can still affect. */
  function Leading(first: bool): seq<bool> {
    [first] + Flag()[1..] + Flag()
  }

  /**
   * From every state of the detector, and whichever level the line and the detector start from, a transmitted
   * frame is delivered exactly once, with its SSID octets fixed, after at most what the detector was already
   * gathering; it ends locked on a flag.
   */
  lemma Received(d: Detector, frame: seq<octet>, level: bool)
    requires Sound(d) && Sendable(frame)
    ensures var levels := Levels(Bitstream(frame), level);
            var first := level != d.prev;
            RunLevels(d, levels) == Fed(Locked(Last(levels, d.prev)), RunData(d, Leading(first)).events + [FixSsids(frame)])
    ensures var f := RunLevels(d, Levels(Bitstream(frame), level));
            var before := RunData(d, Leading(level != d.prev)).events;
            |f.events| == |before| + 1 && before <= f.events && SentAs(frame, f.events[|before|])
  {
    FixedIs(frame, FixSsids(frame));
    var stream := Bitstream(frame);
    var levels := Levels(stream, level);
    var first := level != d.prev;
    assert stream[0] == Flag()[0] == false;
    NrziAnyStart(stream, level, d.prev);
    var data := Data(levels, d.prev);
    assert data == Misread(frame, first);
    MisreadShape(frame, first);
    StreamRun(d, [first] + Flag()[1..], frame);
    LevelsAreData(d, levels);
  }

  /** A detector that is not in the middle of a frame delivers the transmitted frame and nothing else. */
  lemma ReceivedExactly(d: Detector, frame: seq<octet>, level: bool)
    requires Sound(d) && d.mode != InFrame && Sendable(frame)
    ensures var levels := Levels(Bitstream(frame), level);
            RunLevels(d, levels) == Fed(Locked(Last(levels, d.prev)), [FixSsids(frame)])
    ensures var f := RunLevels(d, Levels(Bitstream(frame), level)); |f.events| == 1 && SentAs(frame, f.events[0])
  {
    FixedIs(frame, FixSsids(frame));
    Received(d, frame, level);
    FewBits(d, Leading(level != d.prev));
  }

  function Invert(levels: seq<bool>): (r: seq<bool>)
    ensures |r| == |levels|
  {
    seq(|levels|, i requires 0 <= i < |levels| => !levels[i])
  }

  lemma {:induction false} InvertedLevels(bits: seq<bool>, level: bool)
    ensures Invert(Levels(bits, level)) == Levels(bits, !level)
    decreases |bits|
  {
    if bits != [] {
      InvertedLevels(bits[1..], if bits[0] then level else !level);
    }
  }

  /** From reset, the stream as sent and the stream inverted both deliver the frame, once. */
  lemma BothPolarities(frame: seq<octet>, level: bool)
    requires Sendable(frame)
    ensures var levels := Levels(Bitstream(frame), level);
            RunLevels(Reset(), levels).events == RunLevels(Reset(), Invert(levels)).events == [FixSsids(frame)]
    ensures var f := RunLevels(Reset(), Levels(Bitstream(frame), level)); |f.events| == 1 && SentAs(frame, f.events[0])
  {
    ReceivedExactly(Reset(), frame, level);
    ReceivedExactly(Reset(), frame, !level);
    InvertedLevels(Bitstream(frame), level);
  }

  /** Transmissions one after another, each from whatever level the line is at. */
  function Transmissions(frames: seq<seq<octet>>, levels: seq<bool>): seq<bool>
    requires |levels| == |frames| && forall i :: 0 <= i < |frames| ==> Sendable(frames[i])
  {
    if frames == [] then [] else Levels(Bitstream(frames[0]), levels[0]) + Transmissions(frames[1..], levels[1..])
  }

  function AllFixed(frames: seq<seq<octet>>): seq<seq<octet>>
    requires forall i :: 0 <= i < |frames| ==> |frames[i]| >= 14
  {
    if frames == [] then [] else [FixSsids(frames[0])] + AllFixed(frames[1..])
  }

  lemma {:induction false} LevelsAppend(d: Detector, a: seq<bool>, b: seq<bool>)
    requires Sound(d)
    ensures var f := RunLevels(d, a);
            var g := RunLevels(f.dec, b);
            RunLevels(d, a + b) == Fed(g.dec, f.events + g.events)
    decreases |a|
  {
    if a == [] {
      NoBits(b);
      NoEvents(RunLevels(d, b).events);
    } else {
      var e := FeedLevel(d, a[0]).dec;
      LevelsAppend(e, a[1..], b);
      ConsAppend(a, b);
      Assoc(FeedLevel(d, a[0]).events, RunLevels(e, a[1..]).events, RunLevels(RunLevels(e, a[1..]).dec, b).events);
    }
  }

  lemma MoreSent(frames: seq<seq<octet>>, g: seq<octet>, gs: seq<seq<octet>>)
    requires |frames| == 1 + |gs| && (forall i :: 0 <= i < |frames| ==> |frames[i]| >= 14) && SentAs(frames[0], g)
    requires forall i :: 0 <= i < |gs| ==> |frames[1..][i]| >= 14 && SentAs(frames[1..][i], gs[i])
    ensures forall i :: 0 <= i < |frames| ==> SentAs(frames[i], ([g] + gs)[i])
  {
    hide SentAs;
    forall i | 0 < i < |frames| ensures SentAs(frames[i], ([g] + gs)[i]) {
      assert frames[1..][i - 1] == frames[i];
    }
  }

  /** Every frame of a run of transmissions is delivered, in order, once, and nothing else is. */
  lemma {:induction false} AllReceived(d: Detector, frames: seq<seq<octet>>, levels: seq<bool>)
    requires Sound(d) && d.mode != InFrame
    requires |levels| == |frames| && forall i :: 0 <= i < |frames| ==> Sendable(frames[i])
    ensures RunLevels(d, Transmissions(frames, levels)).events == AllFixed(frames)
    ensures var f := RunLevels(d, Transmissions(frames, levels));
            |f.events| == |frames| && forall i :: 0 <= i < |frames| ==> SentAs(frames[i], f.events[i])
    decreases |frames|
  {
    hide SentAs;
    if frames != [] {
      var first := Levels(Bitstream(frames[0]), levels[0]);
      var rest := Transmissions(frames[1..], levels[1..]);
      assert Transmissions(frames, levels) == first + rest && AllFixed(frames) == [FixSsids(frames[0])] + AllFixed(frames[1..]);
      hide *;
      ReceivedExactly(d, frames[0], levels[0]);
      LevelsAppend(d, first, rest);
      AllReceived(RunLevels(d, first).dec, frames[1..], levels[1..]);
      MoreSent(frames, RunLevels(d, first).events[0], RunLevels(RunLevels(d, first).dec, rest).events);
    }
  }

  // ---- Altered frames ----

  /** A run that is f, its checksum and at most seven spare bits. */
  predicate Checked(bits: seq<bool>, f: seq<octet>) {
    && 16 <= |f| <= MAX_FRAME_BYTES - 2 && 8 * |f| + 16 <= |bits| < 8 * |f| + 24
    && bits[..8 * |f| + 16] == Bits(f) + CheckBits(Bits(f))
  }

  lemma DeliveredIsChecked(bits: seq<bool>)
    requires FrameOf(bits).Some?
    ensures Checked(bits, FrameOf(bits).value)
  {
    var w := bits[..8 * (|bits| / 8)];
    BitsOfOctets(w[..|w| - 16]);
    assert w == w[..|w| - 16] + w[|w| - 16..];
  }

  lemma CheckedIsDelivered(bits: seq<bool>, f: seq<octet>)
    requires Checked(bits, f)
    ensures FrameOf(bits) == Some(f)
  {
    var w := bits[..8 * (|bits| / 8)];
    assert w[..|w| - 16] == Bits(f) && w[|w| - 16..] == CheckBits(Bits(f));
    OctetsOfBits(f);
  }

  /** A gathered run is delivered as f iff f has 16 to 328 octets and the run is f, its checksum and at most seven spare bits. */
  lemma DeliveredChecks(bits: seq<bool>, f: seq<octet>)
    ensures FrameOf(bits) == Some(f) <==> Checked(bits, f)
  {
    hide *;
    if FrameOf(bits) == Some(f) {
      DeliveredIsChecked(bits);
    }
    if Checked(bits, f) {
      CheckedIsDelivered(bits, f);
    }
  }

  /**
   * A transmitted frame whose destuffed bits, checksum included, are altered by a burst confined to sixteen
   * consecutive bits, or in any odd number of places, is not delivered.
   */
  lemma AlteredRefused(frame: seq<octet>, e: seq<bool>, at: nat)
    requires Sendable(frame) && |e| == |Content(frame)| && true in e
    requires (forall i :: 0 <= i < |e| && e[i] ==> at <= i < at + 16) || Flips(e) % 2 == 1
    ensures FrameOf(Xor(Content(frame), e)) == None
  {
    var w := Content(frame);
    var fixed := Bits(FixSsids(frame));
    assert w[..|w| - 16] == fixed && w[|w| - 16..] == CheckBits(fixed);
    if Flips(e) % 2 == 1 {
      OddDetected(w, e);
    } else {
      BurstDetected(w, e, at);
    }
    assert Xor(w, e)[..8 * (|frame| + 2)] == Xor(w, e);
  }
}
