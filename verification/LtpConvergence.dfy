/**
 * How fast a transfer completes once the receiver knows the block's length: a report, and every segment
 * it makes the sender repeat, arriving in order.
 */
module LtpConvergence {
  import opened ClaimMap
  import opened ClaimRoom
  import opened LtpSegmentation
  import opened LtpSteps
  import opened LtpAnyOrder

  /** The map after adding each of the ranges in turn. */
  function FeedAll(m: Claims, ps: seq<Claim>): Claims
    decreases |ps|
  {
    if ps == [] then m else FeedAll(AddClaim(m, ps[0].offset, ps[0].length), ps[1..])
  }

  /** The ranges a report of m asks for, in the order the sender repeats them. */
  function Asked(m: Claims, len: nat, mtu: nat): seq<Claim>
    requires mtu > 0
  {
    AllPieces(Gaps(m, 0, len), mtu)
  }

  function Round(m: Claims, len: nat, mtu: nat): Claims
    requires mtu > 0
  {
    FeedAll(m, Asked(m, len, mtu))
  }

  // ---- A range that continues the claimed bytes always finds room ----

  lemma ContinuesNotDropped(m: Claims, s: nat, length: nat)
    requires s > 0 && Covers(m, s - 1)
    ensures !Drops(m, s, length)
  {
    var i :| 0 <= i < |m| && m[i].offset <= s - 1 < m[i].End();
    assert Touches(m[i], s, s + length);
  }

  /** Between them, claims and ranges leave out nothing from lo to len. */
  ghost predicate Together(m: seq<Claim>, ps: seq<Claim>, lo: nat, len: nat) {
    forall x: nat :: lo <= x < len ==> Covers(m, x) || Covers(ps, x)
  }

  lemma TailOfAscending(ps: seq<Claim>, lo: nat, len: nat)
    requires ps != [] && Ascending(ps) && Within(ps, lo, len)
    ensures Ascending(ps[1..]) && Within(ps[1..], ps[0].End(), len)
    ensures forall x: nat :: Covers(ps, x) <==> ps[0].offset <= x < ps[0].End() || Covers(ps[1..], x)
    ensures forall x: nat :: Covers(ps[1..], x) ==> ps[0].End() <= x
  {
    assert forall i :: 0 <= i < |ps[1..]| ==> ps[1..][i] == ps[i + 1];
    forall x: nat ensures Covers(ps, x) <==> ps[0].offset <= x < ps[0].End() || Covers(ps[1..], x) {
      SplitCovers(ps, 1, x);
      CoversOne(ps[0], x);
      assert ps[..1] == [ps[0]];
    }
  }

  lemma FedOnce(m: Claims, p: Claim)
    requires !Drops(m, p.offset, p.length)
    ensures forall x: nat :: Covers(AddClaim(m, p.offset, p.length), x) <==> Covers(m, x) || p.offset <= x < p.End()
  {
    forall x: nat
      ensures Covers(AddClaim(m, p.offset, p.length), x) <==> Covers(m, x) || p.offset <= x < p.End()
    {
      AddClaimCovers(m, p.offset, p.length, x);
    }
  }

  /** After the first range, the next one continues what is claimed. */
  lemma NextContinues(m: Claims, ps: seq<Claim>, lo: nat, len: nat)
    requires |ps| > 1 && Ascending(ps) && Within(ps, lo, len) && Together(m, ps, lo, len)
    requires !Drops(m, ps[0].offset, ps[0].length)
    ensures var m1 := AddClaim(m, ps[0].offset, ps[0].length);
            Together(m1, ps[1..], lo, len) && !Drops(m1, ps[1].offset, ps[1].length)
  {
    var m1 := AddClaim(m, ps[0].offset, ps[0].length);
    TailOfAscending(ps, lo, len);
    FedOnce(m, ps[0]);
    TailOfAscending(ps[1..], ps[0].End(), len);
    var s := ps[1].offset;
    assert ps[1..][0] == ps[1] && ps[0].End() <= s && ps[1].End() <= len;
    assert !Covers(ps[1..], s - 1);
    assert Covers(m1, s - 1);
    ContinuesNotDropped(m1, s, ps[1].length);
  }

  /** If the first of the missing ranges finds room, all of them do, and nothing is missing afterwards. */
  lemma {:induction false} Fills(m: Claims, ps: seq<Claim>, lo: nat, len: nat)
    requires Ascending(ps) && Within(ps, lo, len) && Together(m, ps, lo, len)
    requires ps != [] ==> !Drops(m, ps[0].offset, ps[0].length)
    ensures Together(FeedAll(m, ps), [], lo, len)
    ensures forall x: nat :: Covers(FeedAll(m, ps), x) ==> Covers(m, x) || Covers(ps, x)
    decreases |ps|
  {
    if ps != [] {
      var m1 := AddClaim(m, ps[0].offset, ps[0].length);
      TailOfAscending(ps, lo, len);
      FedOnce(m, ps[0]);
      if |ps| > 1 {
        NextContinues(m, ps, lo, len);
        assert ps[1..][0] == ps[1];
      }
      Fills(m1, ps[1..], lo, len);
    }
  }

  // ---- What a report asks for ----

  lemma AskedExact(m: Claims, len: nat, mtu: nat)
    requires mtu > 0 && EndBy(m, len)
    ensures var ps := Asked(m, len, mtu);
            && Ascending(ps) && Within(ps, 0, len) && NoLongerThan(ps, mtu) && Together(m, ps, 0, len)
            && forall x: nat :: Covers(ps, x) ==> !Covers(m, x)
  {
    ReachIs(m, 0, len);
    GapsAscend(m, 0, len);
    AllPiecesExact(Gaps(m, 0, len), mtu, 0, len);
    forall x: nat ensures Covers(Asked(m, len, mtu), x) <==> x < len && !Covers(m, x) {
      GapsCover(m, 0, len, x);
    }
  }

  /** The first range asked for: the start of the block when that is missing, otherwise the end of a claim. */
  lemma FirstAsked(m: Claims, len: nat, mtu: nat)
    requires mtu > 0 && EndBy(m, len) && Asked(m, len, mtu) != []
    ensures var p := Asked(m, len, mtu)[0];
            !Covers(m, p.offset) && (p.offset == 0 || Covers(m, p.offset - 1))
  {
    AskedExact(m, len, mtu);
    var ps := Asked(m, len, mtu);
    TailOfAscending(ps, 0, len);
    assert Covers(ps, ps[0].offset);
    if ps[0].offset > 0 {
      assert !Covers(ps, ps[0].offset - 1);
    }
  }

  lemma LeadingGap(m: Claims, len: nat, mtu: nat)
    requires mtu > 0 && m != [] && m[0].offset > 0
    ensures var lead := Pieces(0, m[0].offset, mtu);
            |lead| <= |Asked(m, len, mtu)| && lead == Asked(m, len, mtu)[..|lead|] && lead != []
  {
    var g := Claim(0, m[0].offset);
    assert Gaps(m, 0, len) == [g] + Gaps(m[1..], m[0].End(), len);
    assert Gaps(m, 0, len)[1..] == Gaps(m[1..], m[0].End(), len);
  }

  /** When the first repeated range is sure to find room. */
  predicate RoomToStart(m: Claims, mtu: nat) {
    |m| < MAX_CLAIMS || m[0].offset <= mtu
  }

  lemma FirstFits(m: Claims, len: nat, mtu: nat)
    requires mtu > 0 && EndBy(m, len) && RoomToStart(m, mtu) && Asked(m, len, mtu) != []
    ensures var p := Asked(m, len, mtu)[0]; !Drops(m, p.offset, p.length)
  {
    var p := Asked(m, len, mtu)[0];
    FirstAsked(m, len, mtu);
    assert |m| > 0 ==> Covers(m, m[0].offset);
    if p.offset > 0 {
      ContinuesNotDropped(m, p.offset, p.length);
    } else if |m| == MAX_CLAIMS {
      LeadingGap(m, len, mtu);
      assert p == Claim(0, m[0].offset);
      assert Touches(m[0], p.offset, p.offset + p.length);
    }
  }

  lemma RoundFills(m: Claims, len: nat, mtu: nat)
    requires mtu > 0 && len > 0 && EndBy(m, len) && RoomToStart(m, mtu)
    ensures Full(Round(m, len, mtu), len) && EndBy(Round(m, len, mtu), len)
  {
    var ps := Asked(m, len, mtu);
    AskedExact(m, len, mtu);
    if ps != [] {
      FirstFits(m, len, mtu);
    }
    Fills(m, ps, 0, len);
    BoundedCover(m, len);
    BoundedCover(ps, len);
    var r := Round(m, len, mtu);
    CoveredAll(r, len);
  }

  lemma BoundedCover(m: seq<Claim>, len: nat)
    requires EndBy(m, len) || Within(m, 0, len)
    ensures forall x: nat :: Covers(m, x) ==> x < len
  {
  }

  lemma CoveredAll(r: Claims, len: nat)
    requires len > 0 && Together(r, [], 0, len) && forall x: nat :: Covers(r, x) ==> x < len
    ensures Full(r, len) && EndBy(r, len)
  {
    assert forall x: nat :: x < len ==> Covers(r, x) by {
      forall x: nat | x < len ensures Covers(r, x) {
        assert 0 <= x < len;
        assert !Covers([], x);
      }
    }
    FullIffCovers(r, len);
    forall i | 0 <= i < |r| ensures r[i].End() <= len {
      assert r[i].offset <= r[i].End() - 1 < r[i].End();
      assert Covers(r, r[i].End() - 1);
    }
  }

  // ---- A full map whose first claim is far from the start ----

  /** Ranges that touch nothing leave a full map as it is. */
  lemma {:induction false} AllDropped(m: Claims, ps: seq<Claim>)
    requires forall i :: 0 <= i < |ps| ==> Drops(m, ps[i].offset, ps[i].length)
    ensures FeedAll(m, ps) == m
  {
    if ps != [] {
      assert forall i :: 0 <= i < |ps[1..]| ==> ps[1..][i] == ps[i + 1];
      AllDropped(m, ps[1..]);
    }
  }

  lemma {:induction false} FeedAppend(m: Claims, a: seq<Claim>, b: seq<Claim>)
    ensures FeedAll(m, a + b) == FeedAll(FeedAll(m, a), b)
    decreases |a|
  {
    if a == [] {
      assert a + b == b;
    } else {
      assert (a + b)[1..] == a[1..] + b;
      FeedAppend(AddClaim(m, a[0].offset, a[0].length), a[1..], b);
    }
  }

  /** A piece short of the first claim touches nothing. */
  lemma ShortOfFirst(m: Claims, p: Claim)
    requires |m| == MAX_CLAIMS && p.length > 0 && p.End() < m[0].offset
    ensures Drops(m, p.offset, p.length)
  {
    forall i | 0 <= i < |m| ensures !Touches(m[i], p.offset, p.offset + p.length) {
      assert i > 0 ==> m[0].End() < m[i].offset;
    }
  }

  /**
   * In a full map far from the start, the round fills everything but the first pieces of the leading gap;
   * what remains is a single claim.
   */
  lemma FirstRoundLeavesOne(m: Claims, len: nat, mtu: nat)
    requires mtu > 0 && EndBy(m, len) && !RoomToStart(m, mtu)
    ensures var r := Round(m, len, mtu);
            |r| == 1 && r[0].offset > 0 && r[0].End() == len
  {
    var ps := Asked(m, len, mtu);
    var lead := Pieces(0, m[0].offset, mtu);
    var k := |lead| - 1;
    AskedExact(m, len, mtu);
    LeadingGap(m, len, mtu);
    LeadPieces(m[0].offset, mtu);
    var front, back := ps[..k], ps[k..];
    forall i | 0 <= i < |front| ensures Drops(m, front[i].offset, front[i].length) {
      assert front[i] == lead[i];
      ShortOfFirst(m, lead[i]);
    }
    hide AddClaim, Gaps, AllPieces, Pieces, Drops, FeedAll;
    AllDropped(m, front);
    assert ps == front + back;
    FeedAppend(m, front, back);
    assert back[0] == ps[k] == lead[k];
    assert Touches(m[0], back[0].offset, back[0].End());
    BackTogether(m, ps, k, len);
    Fills(m, back, back[0].offset, len);
    OneClaim(m, back, len);
  }

  lemma LeadPieces(end: nat, mtu: nat)
    requires mtu > 0 && end > mtu
    ensures var lead := Pieces(0, end, mtu); var k := |lead| - 1;
            && k >= 1 && lead[k].End() == end && lead[k].offset > 0
            && forall i :: 0 <= i < k ==> lead[i].length > 0 && lead[i].End() < end
  {
    LastCellEnds(end, mtu);
    var lead := Cells(end, mtu);
    assert lead[0].offset == 0 && lead[0].length == mtu;
    var k := |lead| - 1;
    assert forall i :: 0 <= i < k ==> lead[i].End() <= lead[k].offset;
  }

  lemma BackTogether(m: Claims, ps: seq<Claim>, k: nat, len: nat)
    requires k < |ps| && Ascending(ps) && Within(ps, 0, len) && Together(m, ps, 0, len)
    ensures var back := ps[k..];
            Ascending(back) && Within(back, ps[k].offset, len) && Together(m, back, ps[k].offset, len)
  {
    var back := ps[k..];
    assert forall i :: 0 <= i < |back| ==> back[i] == ps[k + i];
    forall x: nat | ps[k].offset <= x < len ensures Covers(m, x) || Covers(back, x) {
      SplitCovers(ps, k, x);
    }
  }

  lemma OneClaim(m: Claims, back: seq<Claim>, len: nat)
    requires m != [] && EndBy(m, len) && back != [] && Ascending(back) && Within(back, back[0].offset, len)
    requires 0 < back[0].offset && back[0].End() == m[0].offset
    requires Together(FeedAll(m, back), [], back[0].offset, len)
    requires forall x: nat :: Covers(FeedAll(m, back), x) ==> Covers(m, x) || Covers(back, x)
    ensures var r := FeedAll(m, back); |r| == 1 && r[0].offset > 0 && r[0].End() == len
  {
    var r := FeedAll(m, back);
    var t := back[0].offset;
    var one := [Claim(t, len - t)];
    assert m[0].End() <= len;
    forall x: nat ensures Covers(r, x) <==> Covers(one, x) {
      CoversOne(one[0], x);
      assert !Covers([], x);
      if Covers(m, x) {
        var i :| 0 <= i < |m| && m[i].offset <= x < m[i].End();
        assert i > 0 ==> m[0].End() < m[i].offset;
      }
    }
    Canonical(r, one);
  }

  // ---- The bound ----

  /** One round completes the map exactly when it has a free claim or its first claim starts within one MTU. */
  lemma OneRoundIff(m: Claims, len: nat, mtu: nat)
    requires mtu > 0 && len > 0 && EndBy(m, len)
    ensures Full(Round(m, len, mtu), len) <==> RoomToStart(m, mtu)
  {
    if RoomToStart(m, mtu) {
      RoundFills(m, len, mtu);
    } else {
      FirstRoundLeavesOne(m, len, mtu);
    }
  }

  /** Two rounds always do. */
  lemma TwoRounds(m: Claims, len: nat, mtu: nat)
    requires mtu > 0 && len > 0 && EndBy(m, len)
    ensures Full(Round(Round(m, len, mtu), len, mtu), len)
  {
    if RoomToStart(m, mtu) {
      RoundFills(m, len, mtu);
    } else {
      FirstRoundLeavesOne(m, len, mtu);
    }
    RoundFills(Round(m, len, mtu), len, mtu);
  }
}
