/** How a block, and later the missing ranges of a block, become data segments (ltp.c). */
module LtpSegmentation {
  import opened Bytes
  import opened ClaimMap
  import opened Division
  import opened LtpSegment
  import opened LtpState

  /** [start, end) cut from the left into ranges of at most mtu bytes. */
  function Pieces(start: nat, end: nat, mtu: nat): seq<Claim>
    requires mtu > 0
    decreases end - start
  {
    if start >= end then []
    else
      var chunk := if end - start > mtu then mtu else end - start;
      [Claim(start, chunk)] + Pieces(start + chunk, end, mtu)
  }

  /** The ranges between cursor and upper that no claim reaches, found in one sweep over the claims. */
  function Gaps(claims: seq<Claim>, cursor: nat, upper: nat): (g: seq<Claim>)
    ensures |g| <= |claims| + 1
  {
    if claims == [] then
      if cursor < upper then [Claim(cursor, upper - cursor)] else []
    else
      var c := claims[0];
      (if c.offset > cursor then [Claim(cursor, c.offset - cursor)] else [])
      + Gaps(claims[1..], if c.End() > cursor then c.End() else cursor, upper)
  }

  function AllPieces(gaps: seq<Claim>, mtu: nat): seq<Claim>
    requires mtu > 0
  {
    if gaps == [] then [] else Pieces(gaps[0].offset, gaps[0].End(), mtu) + AllPieces(gaps[1..], mtu)
  }

  /** len bytes of a session buffer. The C code reads past the buffer where this has no bytes to give. */
  function Slice(data: Buffer, offset: nat, length: nat): seq<byte> {
    if offset + length <= MAX_BLOCK_SIZE then data[offset..offset + length] else []
  }

  function DataSegment(x: Export, kind: nat, r: Claim, serial: nat): Segment {
    DataSeg(Header(0, kind, x.engine, x.session, 0, 0), 1, r.offset, serial, 0, Slice(x.data, r.offset, r.length))
  }

  /** One data segment a range; the last one is the checkpoint. */
  function Segments(x: Export, ps: seq<Claim>, lastKind: nat, serial: nat): (s: seq<Segment>)
    ensures |s| == |ps|
    ensures forall i :: 0 <= i < |s| ==>
              s[i] == if i == |s| - 1 then DataSegment(x, lastKind, ps[i], serial) else DataSegment(x, RED_DATA, ps[i], 0)
  {
    if ps == [] then []
    else if |ps| == 1 then [DataSegment(x, lastKind, ps[0], serial)]
    else [DataSegment(x, RED_DATA, ps[0], 0)] + Segments(x, ps[1..], lastKind, serial)
  }

  /** The MTU a retransmission uses, with the engine's fallbacks. */
  function EffectiveMtu(x: Export, config: Config): (m: nat)
    ensures m > 0
  {
    if x.mtu != 0 then x.mtu else if config.mtu != 0 then config.mtu else DEFAULT_SEGMENT_MTU
  }

  function Missing(x: Export, config: Config, claims: seq<Claim>, lower: nat, upper: nat): seq<Claim> {
    AllPieces(Gaps(claims, lower, if upper > x.len then x.len else upper), EffectiveMtu(x, config))
  }

  // ---- Exactness ----

  /** Ranges in ascending order that do not overlap. */
  predicate Ascending(ps: seq<Claim>) {
    && (forall i :: 0 <= i < |ps| ==> ps[i].length > 0)
    && (forall i, j :: 0 <= i < j < |ps| ==> ps[i].End() <= ps[j].offset)
  }

  ghost predicate Within(ps: seq<Claim>, lo: nat, hi: nat) {
    forall i :: 0 <= i < |ps| ==> lo <= ps[i].offset && ps[i].End() <= hi
  }

  ghost predicate NoLongerThan(ps: seq<Claim>, mtu: nat) {
    forall i :: 0 <= i < |ps| ==> ps[i].length <= mtu
  }

  lemma CoversAppend(a: seq<Claim>, b: seq<Claim>, x: nat)
    ensures Covers(a + b, x) <==> Covers(a, x) || Covers(b, x)
  {
    SplitCovers(a + b, |a|, x);
    assert (a + b)[..|a|] == a && (a + b)[|a|..] == b;
  }

  lemma CoversOne(c: Claim, x: nat)
    ensures Covers([c], x) <==> c.offset <= x < c.End()
  {
    assert [c][0] == c;
  }

  lemma AscendingAppend(a: seq<Claim>, b: seq<Claim>, lo: nat, mid: nat, hi: nat)
    requires Ascending(a) && Within(a, lo, mid) && Ascending(b) && Within(b, mid, hi) && lo <= mid <= hi
    ensures Ascending(a + b) && Within(a + b, lo, hi)
  {
    var c := a + b;
    forall i | 0 <= i < |c| ensures c[i].length > 0 && lo <= c[i].offset && c[i].End() <= hi {
      if i < |a| { assert c[i] == a[i]; } else { assert c[i] == b[i - |a|]; }
    }
    forall i, j | 0 <= i < j < |c| ensures c[i].End() <= c[j].offset {
      if j < |a| { assert c[i] == a[i] && c[j] == a[j]; }
      else if i < |a| { assert c[i] == a[i] && c[j] == b[j - |a|]; }
      else { assert c[i] == b[i - |a|] && c[j] == b[j - |a|]; }
    }
  }

  /** Cutting a range keeps exactly its bytes, in order, in pieces of at most mtu. */
  lemma {:induction false} PiecesExact(start: nat, end: nat, mtu: nat)
    requires mtu > 0 && start <= end
    ensures var ps := Pieces(start, end, mtu); Ascending(ps) && Within(ps, start, end) && NoLongerThan(ps, mtu)
    ensures forall x: nat :: Covers(Pieces(start, end, mtu), x) <==> start <= x < end
    decreases end - start
  {
    if start < end {
      var chunk := if end - start > mtu then mtu else end - start;
      var rest := Pieces(start + chunk, end, mtu);
      PiecesExact(start + chunk, end, mtu);
      AscendingAppend([Claim(start, chunk)], rest, start, start + chunk, end);
      forall x: nat ensures Covers([Claim(start, chunk)] + rest, x) <==> start <= x < end {
        hide *;
        CoversAppend([Claim(start, chunk)], rest, x);
        CoversOne(Claim(start, chunk), x);
      }
    }
  }

  /** The i-th piece of a range. */
  lemma {:induction false} PieceAt(start: nat, end: nat, mtu: nat, i: nat)
    requires mtu > 0 && i < |Pieces(start, end, mtu)|
    ensures var p := Pieces(start, end, mtu)[i];
            && p.offset == start + i * mtu < end
            && p.End() == if start + (i + 1) * mtu <= end then start + (i + 1) * mtu else end
    decreases i
  {
    assert (i + 1) * mtu == i * mtu + mtu;
    if i > 0 {
      assert i * mtu == (i - 1) * mtu + mtu;
      PieceAt(start + mtu, end, mtu, i - 1);
      MulMonotone(0, i - 1, mtu);
    }
  }

  /** The last piece ends where the range does. */
  lemma LastPiece(start: nat, end: nat, mtu: nat)
    requires mtu > 0 && start < end
    ensures var ps := Pieces(start, end, mtu);
            && |ps| > 0 && ps[|ps| - 1].End() == end && ps[|ps| - 1].offset == start + (|ps| - 1) * mtu
            && 0 < ps[|ps| - 1].length <= mtu
  {
    var ps := Pieces(start, end, mtu);
    PiecesExact(start, end, mtu);
    assert Covers(ps, end - 1);
    var j :| 0 <= j < |ps| && ps[j].offset <= end - 1 < ps[j].End();
    var k := |ps| - 1;
    assert ps[k].length > 0 && ps[k].End() <= end;
    PieceAt(start, end, mtu, k);
  }

  /** Where the sweep ends up: the upper bound, or the end of the last claim when that lies further out. */
  function Reach(claims: seq<Claim>, cursor: nat, upper: nat): nat {
    if claims == [] then (if upper > cursor then upper else cursor)
    else Reach(claims[1..], if claims[0].End() > cursor then claims[0].End() else cursor, upper)
  }

  lemma {:induction false} ReachAtLeast(claims: seq<Claim>, cursor: nat, upper: nat)
    ensures Reach(claims, cursor, upper) >= cursor
    ensures forall i :: 0 <= i < |claims| ==> claims[i].End() <= Reach(claims, cursor, upper)
    ensures upper <= Reach(claims, cursor, upper)
  {
    if claims != [] {
      var next := if claims[0].End() > cursor then claims[0].End() else cursor;
      ReachAtLeast(claims[1..], next, upper);
      forall i | 0 <= i < |claims| ensures claims[i].End() <= Reach(claims, cursor, upper) {
        if i > 0 { assert claims[i] == claims[1..][i - 1]; }
      }
    }
  }

  lemma {:induction false} ReachIs(claims: seq<Claim>, cursor: nat, upper: nat)
    requires cursor <= upper && forall i :: 0 <= i < |claims| ==> claims[i].End() <= upper
    ensures Reach(claims, cursor, upper) == upper
  {
    if claims != [] {
      var next := if claims[0].End() > cursor then claims[0].End() else cursor;
      assert forall i :: 0 <= i < |claims[1..]| ==> claims[1..][i] == claims[i + 1];
      ReachIs(claims[1..], next, upper);
    }
  }

  lemma TailSeparated(claims: seq<Claim>)
    requires Separated(claims) && claims != []
    ensures Separated(claims[1..])
    ensures forall x: nat :: Covers(claims[1..], x) ==> claims[0].End() < x
  {
    var t := claims[1..];
    assert forall i :: 0 <= i < |t| ==> t[i] == claims[i + 1];
  }

  lemma {:induction false} GapsAscend(claims: seq<Claim>, cursor: nat, upper: nat)
    requires Separated(claims)
    ensures var g := Gaps(claims, cursor, upper); Ascending(g) && Within(g, cursor, Reach(claims, cursor, upper))
    decreases |claims|
  {
    if claims != [] {
      var c := claims[0];
      var next := if c.End() > cursor then c.End() else cursor;
      var head := if c.offset > cursor then [Claim(cursor, c.offset - cursor)] else [];
      TailSeparated(claims);
      GapsAscend(claims[1..], next, upper);
      ReachAtLeast(claims[1..], next, upper);
      AscendingAppend(head, Gaps(claims[1..], next, upper), cursor, next, Reach(claims, cursor, upper));
    }
  }

  /** For separated claims the sweep finds exactly the unclaimed bytes. */
  lemma {:induction false} GapsCover(claims: seq<Claim>, cursor: nat, upper: nat, x: nat)
    requires Separated(claims)
    ensures Covers(Gaps(claims, cursor, upper), x)
            <==> cursor <= x < Reach(claims, cursor, upper) && !Covers(claims, x)
    decreases |claims|
  {
    if claims == [] {
      if cursor < upper { CoversOne(Claim(cursor, upper - cursor), x); }
    } else {
      var c := claims[0];
      var next := if c.End() > cursor then c.End() else cursor;
      TailSeparated(claims);
      GapsCover(claims[1..], next, upper, x);
      ReachAtLeast(claims[1..], next, upper);
      GapsHead(claims, cursor, upper, next, x);
    }
  }

  lemma GapsHead(claims: seq<Claim>, cursor: nat, upper: nat, next: nat, x: nat)
    requires claims != [] && next == if claims[0].End() > cursor then claims[0].End() else cursor
    ensures Covers(Gaps(claims, cursor, upper), x)
            <==> cursor <= x < claims[0].offset || Covers(Gaps(claims[1..], next, upper), x)
    ensures Covers(claims, x) <==> claims[0].offset <= x < claims[0].End() || Covers(claims[1..], x)
  {
    var c := claims[0];
    var head := if c.offset > cursor then [Claim(cursor, c.offset - cursor)] else [];
    CoversAppend(head, Gaps(claims[1..], next, upper), x);
    if c.offset > cursor { CoversOne(head[0], x); }
    SplitCovers(claims, 1, x);
    assert claims[..1] == [c];
    CoversOne(c, x);
  }

  lemma {:induction false} AllPiecesExact(gaps: seq<Claim>, mtu: nat, lo: nat, hi: nat)
    requires mtu > 0 && Ascending(gaps) && Within(gaps, lo, hi) && lo <= hi
    ensures var ps := AllPieces(gaps, mtu); Ascending(ps) && Within(ps, lo, hi) && NoLongerThan(ps, mtu)
    ensures forall x: nat :: Covers(AllPieces(gaps, mtu), x) <==> Covers(gaps, x)
    decreases |gaps|
  {
    if gaps != [] {
      var g := gaps[0];
      var head, rest := Pieces(g.offset, g.End(), mtu), AllPieces(gaps[1..], mtu);
      PiecesExact(g.offset, g.End(), mtu);
      assert forall i :: 0 <= i < |gaps[1..]| ==> gaps[1..][i] == gaps[i + 1];
      AllPiecesExact(gaps[1..], mtu, g.End(), hi);
      AscendingAppend(head, rest, g.offset, g.End(), hi);
      forall x: nat ensures Covers(head + rest, x) <==> Covers(gaps, x) {
        CoversAppend(head, rest, x);
        SplitCovers(gaps, 1, x);
        CoversOne(g, x);
        assert gaps[..1] == [g];
      }
    }
  }

  /**
   * Retransmission is exact: for a report whose claims are separated, the ranges sent again ascend without
   * overlap, none exceeds the MTU, and together they are exactly the bytes from the lower bound up to the
   * upper bound (or the last claim, when that lies further out) that no claim covers.
   */
  lemma MissingExact(x: Export, config: Config, claims: Claims, lower: nat, upper: nat)
    ensures var ps := Missing(x, config, claims, lower, upper);
            var top := Reach(claims, lower, if upper > x.len then x.len else upper);
            && Ascending(ps) && Within(ps, lower, top) && NoLongerThan(ps, EffectiveMtu(x, config))
            && forall b: nat :: Covers(ps, b) <==> lower <= b < top && !Covers(claims, b)
  {
    var u: nat := if upper > x.len then x.len else upper;
    GapsAscend(claims, lower, u);
    forall b: nat
      ensures Covers(Gaps(claims, lower, u), b) <==> lower <= b < Reach(claims, lower, u) && !Covers(claims, b)
    {
      GapsCover(claims, lower, u, b);
    }
    ReachAtLeast(claims, lower, u);
    AllPiecesExact(Gaps(claims, lower, u), EffectiveMtu(x, config), lower, Reach(claims, lower, u));
  }
}
