/** KISS framing (kiss.c): FEND-delimited frames with byte stuffing, and a byte-at-a-time decoder. */
module Kiss {
  import opened Bytes
  import opened Sequences

  const FEND: byte := 0xC0
  const FESC: byte := 0xDB
  const TFEND: byte := 0xDC
  const TFESC: byte := 0xDD
  const MAX_PAYLOAD := 65535

  // ---- Encoding ----

  function StuffByte(b: byte): seq<byte> {
    if b == FEND then [FESC, TFEND] else if b == FESC then [FESC, TFESC] else [b]
  }

  function Stuff(p: seq<byte>): seq<byte> {
    if p == [] then [] else StuffByte(p[0]) + Stuff(p[1..])
  }

  function Encode(p: seq<byte>): seq<byte> {
    [FEND, 0] + Stuff(p) + [FEND]
  }

  /** Fills out with the frame; -1 as soon as it does not fit. */
  method KissEncode(p: seq<byte>, out: array<byte>) returns (n: int)
    modifies out
    ensures n == if |Encode(p)| <= out.Length then |Encode(p)| else -1
    ensures n >= 0 ==> out[..n] == Encode(p)
  {
    if out.Length < 2 {
      return -1;
    }
    out[0], out[1] := FEND, 0;
    var pos: nat := 2;
    ghost var goal := [FEND, 0] + Stuff(p);
    assert out[..pos] + Stuff(p[0..]) == goal;
    for i := 0 to |p|
      invariant pos <= out.Length
      invariant out[..pos] + Stuff(p[i..]) == goal
    {
      StuffStep(out[..pos], p, i);
      ghost var todo := Stuff(p[i + 1..]);
      var k := PutStuffed(p[i], out, pos);
      if k < 0 {
        return -1;
      }
      assert out[..pos + k] + todo == goal;
      pos := pos + k;
    }
    assert p[|p|..] == [] && out[..pos] + [] == out[..pos];
    if pos >= out.Length {
      return -1;
    }
    out[pos] := FEND;
    n := pos + 1;
  }

  method PutStuffed(b: byte, out: array<byte>, pos: nat) returns (k: int)
    requires pos <= out.Length
    modifies out
    ensures k == if pos + |StuffByte(b)| <= out.Length then |StuffByte(b)| else -1
    ensures k >= 0 ==> out[..pos + k] == old(out[..pos]) + StuffByte(b)
  {
    var s := if b == FEND then [FESC, TFEND] else if b == FESC then [FESC, TFESC] else [b];
    if pos + |s| > out.Length {
      return -1;
    }
    out[pos] := s[0];
    if |s| == 2 {
      out[pos + 1] := s[1];
    }
    k := |s|;
  }

  lemma StuffStep(head: seq<byte>, p: seq<byte>, i: nat)
    requires i < |p|
    ensures head + Stuff(p[i..]) == head + StuffByte(p[i]) + Stuff(p[i + 1..])
  {
    assert p[i..][1..] == p[i + 1..];
    assert head + (StuffByte(p[i]) + Stuff(p[i + 1..])) == head + StuffByte(p[i]) + Stuff(p[i + 1..]);
  }

  /** No delimiter inside, and at most twice as long. */
  lemma {:induction false} StuffShape(p: seq<byte>)
    ensures FEND !in Stuff(p)
    ensures |p| <= |Stuff(p)| <= 2 * |p|
  {
    if p != [] {
      StuffShape(p[1..]);
    }
  }

  /** A data command for port 0, delimiters at both ends and nowhere else, three octets of framing, at most one escape an octet. */
  lemma FrameShape(p: seq<byte>)
    ensures var f := Encode(p);
            && 3 + |p| <= |f| <= 3 + 2 * |p| && f[1] == 0
            && forall i :: 0 <= i < |f| ==> (f[i] == FEND <==> i == 0 || i == |f| - 1)
  {
    StuffShape(p);
    var f := Encode(p);
    forall i | 2 <= i < |f| - 1 ensures f[i] != FEND {
      assert f[i] == Stuff(p)[i - 2];
      assert Stuff(p)[i - 2] in Stuff(p);
    }
  }

  // ---- Decoding, as a state machine ----

  /** held is what the buffer contains: the command octet, then the payload so far. */
  datatype Decoder = Decoder(held: seq<byte>, inFrame: bool, escape: bool)

  datatype Event = Nothing | Frame(payload: seq<byte>) | Failed

  datatype Fed = Fed(dec: Decoder, event: Event)

  const IDLE := Decoder([], false, false)
  const READY := Decoder([], true, false)

  /** What every reachable decoder satisfies. An escape may be pending in an empty frame. */
  predicate Reachable(d: Decoder) {
    |d.held| <= MAX_PAYLOAD + 1 && (!d.inFrame ==> d == IDLE)
  }

  function FeedByte(d: Decoder, b: byte, room: nat): Fed {
    if b == FEND then FeedDelimiter(d, room)
    else if !d.inFrame then Fed(d, Nothing)
    else if !d.escape && b == FESC then Fed(d.(escape := true), Nothing)
    else
      var v := if d.escape && b == TFEND then FEND else if d.escape && b == TFESC then FESC else b;
      if |d.held| >= MAX_PAYLOAD + 1 then Fed(IDLE, Failed) else Fed(Decoder(d.held + [v], true, false), Nothing)
  }

  /** A delimiter opens a frame, is ignored in an empty one, and closes a frame that holds anything. */
  function FeedDelimiter(d: Decoder, room: nat): Fed {
    if !d.inFrame then Fed(READY, Nothing)
    else if d.held == [] then Fed(d, Nothing)
    else if d.held[0] % 16 != 0 || room < |d.held| - 1 then Fed(READY, Failed)
    else Fed(READY, Frame(d.held[1..]))
  }

  /** The decoder object: one buffer, filled in place. */
  class KissDecoder {
    const buf: array<byte>
    var len: nat
    var inFrame: bool
    var escape: bool

    ghost predicate Valid()
      reads this
    {
      buf.Length == MAX_PAYLOAD + 1 && len <= buf.Length && (!inFrame ==> len == 0 && !escape)
    }

    ghost function State(): Decoder
      reads this, buf
      requires Valid()
    {
      Decoder(buf[..len], inFrame, escape)
    }

    constructor ()
      ensures Valid() && State() == IDLE && fresh(buf)
    {
      buf := new byte[MAX_PAYLOAD + 1];
      len, inFrame, escape := 0, false, false;
    }

    /** One octet in: 1 and a payload in out when it completes a data frame, -1 on an error, otherwise 0. */
    method Feed(octet: byte, out: array<byte>) returns (status: int, outLen: nat)
      requires Valid() && out != buf
      modifies this`len, this`inFrame, this`escape, buf, out
      ensures Valid()
      ensures var f := FeedByte(old(State()), octet, out.Length);
              && State() == f.dec
              && (status == 1 <==> f.event.Frame?) && (status == -1 <==> f.event.Failed?)
              && (status == 0 <==> f.event.Nothing?)
              && (status == 1 ==> outLen <= out.Length && out[..outLen] == f.event.payload)
      ensures status != 1 ==> out[..] == old(out[..])
    {
      outLen := 0;
      if octet == FEND {
        status, outLen := CloseFrame(out);
        return;
      }
      if !inFrame {
        return 0, 0;
      }
      var b := octet;
      if escape {
        escape := false;
        if b == TFEND {
          b := FEND;
        } else if b == TFESC {
          b := FESC;
        }
      } else if b == FESC {
        escape := true;
        return 0, 0;
      }
      if len >= MAX_PAYLOAD + 1 {
        inFrame, len, escape := false, 0, false;
        return -1, 0;
      }
      buf[len] := b;
      len := len + 1;
      status := 0;
    }

    method CloseFrame(out: array<byte>) returns (status: int, outLen: nat)
      requires Valid() && out != buf
      modifies this`len, this`inFrame, this`escape, out
      ensures Valid()
      ensures var f := FeedDelimiter(old(State()), out.Length);
              && State() == f.dec
              && (status == 1 <==> f.event.Frame?) && (status == -1 <==> f.event.Failed?)
              && (status == 0 <==> f.event.Nothing?)
              && (status == 1 ==> outLen <= out.Length && out[..outLen] == f.event.payload)
      ensures status != 1 ==> out[..] == old(out[..])
    {
      if !inFrame {
        inFrame, len, escape := true, 0, false;
        return 0, 0;
      }
      if len == 0 {
        return 0, 0;
      }
      var command := buf[0];
      var payloadLen: nat := len - 1;
      inFrame, len, escape := true, 0, false;
      if command % 16 != 0 || out.Length < payloadLen {
        return -1, 0;
      }
      forall i | 0 <= i < payloadLen {
        out[i] := buf[i + 1];
      }
      assert out[..payloadLen] == old(buf[..len])[1..];
      return 1, payloadLen;
    }
  }

  // ---- Runs ----

  datatype Trace = Trace(dec: Decoder, payloads: seq<seq<byte>>)

  function Delivered(e: Event): seq<seq<byte>> {
    if e.Frame? then [e.payload] else []
  }

  /** Feeds octets one after another, each with room octets of space for a payload. */
  function Run(d: Decoder, bytes: seq<byte>, room: nat): Trace
    decreases |bytes|
  {
    if bytes == [] then Trace(d, [])
    else
      var f := FeedByte(d, bytes[0], room);
      var t := Run(f.dec, bytes[1..], room);
      Trace(t.dec, Delivered(f.event) + t.payloads)
  }

  lemma {:induction false} RunAppend(d: Decoder, a: seq<byte>, b: seq<byte>, room: nat)
    ensures var t := Run(d, a, room);
            var u := Run(t.dec, b, room);
            Run(d, a + b, room) == Trace(u.dec, t.payloads + u.payloads)
    decreases |a|
  {
    if a == [] {
      assert a + b == b;
    } else {
      var f := FeedByte(d, a[0], room);
      RunAppend(f.dec, a[1..], b, room);
      assert (a + b)[1..] == a[1..] + b;
      Assoc(Delivered(f.event), Run(f.dec, a[1..], room).payloads,
            Run(Run(f.dec, a[1..], room).dec, b, room).payloads);
    }
  }

  lemma {:induction false} RunReachable(d: Decoder, bytes: seq<byte>, room: nat)
    requires Reachable(d)
    ensures Reachable(Run(d, bytes, room).dec)
    decreases |bytes|
  {
    if bytes != [] {
      RunReachable(FeedByte(d, bytes[0], room).dec, bytes[1..], room);
    }
  }

  lemma RunOne(d: Decoder, b: byte, room: nat)
    ensures var f := FeedByte(d, b, room); Run(d, [b], room) == Trace(f.dec, Delivered(f.event))
  {
    assert Delivered(FeedByte(d, b, room).event) + [] == Delivered(FeedByte(d, b, room).event);
  }

  /** A stuffed octet adds that octet to the frame, or overflows it. */
  lemma StuffByteRun(d: Decoder, b: byte, room: nat)
    requires d.inFrame && !d.escape
    ensures Run(d, StuffByte(b), room)
         == Trace(if |d.held| <= MAX_PAYLOAD then Decoder(d.held + [b], true, false) else IDLE, [])
  {
    if b == FEND || b == FESC {
      var e := d.(escape := true);
      var t := if b == FEND then TFEND else TFESC;
      assert StuffByte(b)[1..] == [t];
      RunOne(e, t, room);
    } else {
      RunOne(d, b, room);
    }
  }

  lemma {:induction false} IdleIgnores(bytes: seq<byte>, room: nat)
    requires FEND !in bytes
    ensures Run(IDLE, bytes, room) == Trace(IDLE, [])
  {
    if bytes != [] {
      assert bytes[0] in bytes;
      IdleIgnores(bytes[1..], room);
    }
  }

  /** A stuffed payload is held octet for octet while it fits, and abandons the frame otherwise. */
  lemma {:induction false} StuffRun(d: Decoder, p: seq<byte>, room: nat)
    requires d.inFrame && !d.escape && |d.held| <= MAX_PAYLOAD + 1
    ensures Run(d, Stuff(p), room)
         == Trace(if |d.held| + |p| <= MAX_PAYLOAD + 1 then Decoder(d.held + p, true, false) else IDLE, [])
    decreases |p|
  {
    if p == [] {
      assert d.held + p == d.held;
    } else {
      RunAppend(d, StuffByte(p[0]), Stuff(p[1..]), room);
      StuffByteRun(d, p[0], room);
      if |d.held| <= MAX_PAYLOAD {
        StuffRun(Decoder(d.held + [p[0]], true, false), p[1..], room);
        HeldStep(d.held, p);
      } else {
        StuffShape(p[1..]);
        IdleIgnores(Stuff(p[1..]), room);
      }
    }
  }

  lemma HeldStep(held: seq<byte>, p: seq<byte>)
    requires p != []
    ensures held + [p[0]] + p[1..] == held + p
  {
  }

  /** What a delimiter closes in the state the decoder happens to be in. */
  function Closed(d: Decoder, room: nat): seq<seq<byte>> {
    Delivered(FeedDelimiter(d, room).event)
  }

  /** The opening of a frame brings every decoder, even one with an escape pending, to an empty payload. */
  lemma OpeningRun(d: Decoder, room: nat)
    requires Reachable(d)
    ensures Run(d, [FEND, 0], room) == Trace(Decoder([0], true, false), Closed(d, room))
  {
    var f := FeedDelimiter(d, room);
    assert [FEND, 0][1..] == [0];
    RunOne(f.dec, 0, room);
    assert f.dec.held + [0] == [0];
    assert Closed(d, room) + [] == Closed(d, room);
  }

  /**
   * Self-synchronisation: from every reachable state, in mid-frame, in mid-escape or after an overflow, an
   * encoded frame yields its payload exactly, after whatever its first delimiter closed. It does so for the
   * payloads of at most 65535 octets that the caller's buffer can hold, and for no others.
   */
  lemma FrameRun(d: Decoder, p: seq<byte>, room: nat)
    requires Reachable(d)
    ensures Run(d, Encode(p), room)
         == Trace(READY, Closed(d, room) + if Deliverable(p, room) then [p] else [])
  {
    var pre := Closed(d, room);
    var start := Decoder([0], true, false);
    OpeningRun(d, room);
    RunAppend(d, [FEND, 0], Stuff(p), room);
    StuffRun(start, p, room);
    assert pre + [] == pre;
    RunAppend(d, [FEND, 0] + Stuff(p), [FEND], room);
    var full := if |p| <= MAX_PAYLOAD then Decoder([0] + p, true, false) else IDLE;
    RunOne(full, FEND, room);
    assert ([0] + p)[1..] == p;
  }

  function EncodeAll(ps: seq<seq<byte>>): seq<byte> {
    if ps == [] then [] else Encode(ps[0]) + EncodeAll(ps[1..])
  }

  predicate Deliverable(p: seq<byte>, room: nat) {
    |p| <= MAX_PAYLOAD && |p| <= room
  }

  /** The payloads the decoder can hold and the caller can take. */
  function Fitting(ps: seq<seq<byte>>, room: nat): seq<seq<byte>> {
    if ps == [] then [] else (if Deliverable(ps[0], room) then [ps[0]] else []) + Fitting(ps[1..], room)
  }

  /** Frames sent one after another come out as sent, in order, after whatever the first delimiter closed. */
  lemma {:induction false} FramesRun(d: Decoder, ps: seq<seq<byte>>, room: nat)
    requires Reachable(d) && ps != []
    ensures Run(d, EncodeAll(ps), room) == Trace(READY, Closed(d, room) + Fitting(ps, room))
    decreases |ps|
  {
    FrameRun(d, ps[0], room);
    RunAppend(d, Encode(ps[0]), EncodeAll(ps[1..]), room);
    var first := if Deliverable(ps[0], room) then [ps[0]] else [];
    if |ps| > 1 {
      FramesRun(READY, ps[1..], room);
      NothingClosed(Fitting(ps[1..], room), room);
    }
    Assoc(Closed(d, room), first, Fitting(ps[1..], room));
  }

  lemma NothingClosed(ps: seq<seq<byte>>, room: nat)
    ensures Closed(READY, room) + ps == ps
  {
  }

  /**
   * After any garbage at all, a run of frames decodes to exactly its payloads, in order; the garbage
   * contributes what it completed itself and at most the frame that the first delimiter closes.
   */
  lemma Resynchronises(garbage: seq<byte>, ps: seq<seq<byte>>, room: nat)
    requires ps != []
    ensures var g := Run(IDLE, garbage, room);
            Run(IDLE, garbage + EncodeAll(ps), room) == Trace(READY, g.payloads + Closed(g.dec, room) + Fitting(ps, room))
  {
    var g := Run(IDLE, garbage, room);
    RunReachable(IDLE, garbage, room);
    RunAppend(IDLE, garbage, EncodeAll(ps), room);
    FramesRun(g.dec, ps, room);
    Assoc(g.payloads, Closed(g.dec, room), Fitting(ps, room));
  }

  // ---- Octets no encoder wrote ----

  /**
   * What the octets between two delimiters stand for. An escape keeps any octet it does not know as it is,
   * another escape included, and one with nothing after it stands for nothing.
   */
  function Unescape(w: seq<byte>): seq<byte> {
    if w == [] then []
    else if w[0] != FESC then [w[0]] + Unescape(w[1..])
    else if |w| == 1 then []
    else [if w[1] == TFEND then FEND else if w[1] == TFESC then FESC else w[1]] + Unescape(w[2..])
  }

  lemma {:induction false} UnescapeStuff(p: seq<byte>)
    ensures Unescape(Stuff(p)) == p
  {
    if p != [] {
      UnescapeStuff(p[1..]);
      var u := StuffByte(p[0]);
      assert Stuff(p)[|u|..] == Stuff(p[1..]);
    }
  }

  /** Octets between delimiters are gathered as what they stand for, or overflow the buffer and are forgotten. */
  lemma {:induction false} Gathers(d: Decoder, w: seq<byte>, room: nat)
    requires d.inFrame && !d.escape && |d.held| <= MAX_PAYLOAD + 1 && FEND !in w
    ensures var t := Run(d, w, room);
            && t.payloads == []
            && if |d.held| + |Unescape(w)| <= MAX_PAYLOAD + 1
               then t.dec.held == d.held + Unescape(w) && t.dec.inFrame
               else t.dec == IDLE
    decreases |w|, 0
  {
    if w == [] {
      assert d.held + [] == d.held;
    } else if w[0] != FESC {
      GatherOne(d, w[..1], w[1..], w[0], room);
      assert w == w[..1] + w[1..];
    } else if |w| == 1 {
      RunOne(d, FESC, room);
      assert w == [FESC] && d.held + [] == d.held;
    } else {
      assert w[1] in w;
      var v := if w[1] == TFEND then FEND else if w[1] == TFESC then FESC else w[1];
      assert w[..2][1..] == [w[1]];
      RunOne(d.(escape := true), w[1], room);
      GatherOne(d, w[..2], w[2..], v, room);
      assert w == w[..2] + w[2..];
    }
  }

  /** One stored octet, then the rest. */
  lemma {:induction false} GatherOne(d: Decoder, u: seq<byte>, rest: seq<byte>, v: byte, room: nat)
    requires d.inFrame && !d.escape && |d.held| <= MAX_PAYLOAD + 1 && FEND !in rest
    requires Run(d, u, room) == Trace(if |d.held| <= MAX_PAYLOAD then Decoder(d.held + [v], true, false) else IDLE, [])
    ensures var t := Run(d, u + rest, room);
            && t.payloads == []
            && if |d.held| + 1 + |Unescape(rest)| <= MAX_PAYLOAD + 1
               then t.dec.held == d.held + ([v] + Unescape(rest)) && t.dec.inFrame
               else t.dec == IDLE
    decreases |rest|, 1
  {
    RunAppend(d, u, rest, room);
    if |d.held| <= MAX_PAYLOAD {
      Gathers(Decoder(d.held + [v], true, false), rest, room);
      Assoc(d.held, [v], Unescape(rest));
    } else {
      IdleIgnores(rest, room);
    }
  }

  /**
   * Whatever stands between two delimiters, escapes the encoder never writes included: it is delivered without
   * its command octet iff that octet is a data command, on any port, and the buffers can hold what it stands for.
   */
  lemma AnyFrame(w: seq<byte>, room: nat)
    requires FEND !in w && Unescape(w) != []
    ensures var u := Unescape(w);
            && Run(READY, w + [FEND], room)
               == Trace(READY, if u[0] % 16 == 0 && Deliverable(u[1..], room) then [u[1..]] else [])
  {
    var u := Unescape(w);
    Gathers(READY, w, room);
    assert READY.held + u == u;
    RunAppend(READY, w, [FEND], room);
    RunOne(Run(READY, w, room).dec, FEND, room);
  }
}
