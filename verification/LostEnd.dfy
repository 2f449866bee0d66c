/**
 * A completed session that was never delivered. For every block that is not roomy there is a run in which the
 * receiver's map has no room for the block's end, the sender repeats the end without the end-of-block mark,
 * the receiver gives the session up and opens it again, and everything but the mark arrives.
 */
module LostEnd {
  import opened Bytes
  import opened ClaimMap
  import opened ClaimRoom
  import opened Division
  import opened LtpSegment
  import opened LtpState
  import opened LtpSegmentation
  import opened LtpSteps
  import opened TwoParty
  import opened TwoPartySafety
  import opened LtpAnyOrder
  import opened LtpConvergence
  import opened LtpRound
  import opened LostEndSteps
  import opened Sdnv

  // ---- Ranges ----

  /** How many cells a block has. */
  lemma CellCount(len: nat, mtu: nat)
    requires mtu > 0 && len > 0
    ensures var n := |Cells(len, mtu)|; n > 0 && (n - 1) * mtu < len <= n * mtu
    ensures var r := Cells(len, mtu)[|Cells(len, mtu)| - 1]; r == Claim((|Cells(len, mtu)| - 1) * mtu, len - (|Cells(len, mtu)| - 1) * mtu)
  {
    LastPiece(0, len, mtu);
    var n := |Cells(len, mtu)|;
    assert n * mtu == (n - 1) * mtu + mtu;
  }

  /** The first k numbers. */
  ghost function Upto(k: nat): (o: seq<nat>)
    ensures |o| == k && forall i :: 0 <= i < k ==> o[i] == i
  {
    if k == 0 then [] else Upto(k - 1) + [k - 1]
  }

  /** A range that starts within or right after the only claim extends it. */
  lemma Extends(e: nat, r: Claim)
    requires 0 < e && 0 < r.length && r.offset <= e <= r.End()
    ensures var m: Claims := [Claim(0, e)]; AddClaim(m, r.offset, r.length) == [Claim(0, r.End())]
  {
    var m: Claims := [Claim(0, e)];
    assert Before(m, r.offset) == 0;
    assert m[1..] == [] && UpTo(m[1..], r.End()) == 0;
    assert UpTo(m, r.End()) == 1;
    assert m[0..1] == m;
    assert Hull(m, r) == Claim(0, r.End());
    assert Splice(m, 0, 1, Claim(0, r.End())) == [Claim(0, r.End())];
  }

  lemma FirstClaim(r: Claim)
    requires r.length > 0
    ensures AddClaim([], r.offset, r.length) == [r]
  {
    AppendClaim([], r.offset, r.length);
    assert [] + [r] == [r];
  }

  /** What the cells below e make, heard in order. */
  function Prefix(e: nat): (m: Claims) {
    if e == 0 then [] else [Claim(0, e)]
  }

  /** Cells in order make one claim. */
  lemma {:induction false} InOrder(len: nat, mtu: nat, k: nat)
    requires mtu > 0 && k < |Cells(len, mtu)|
    ensures ClaimsAfter(Cells(len, mtu), Upto(k)) == Prefix(k * mtu)
  {
    hide *;
    if k == 0 {
      NoneInOrder(len, mtu);
    } else {
      InOrder(len, mtu, k - 1);
      InOrderStep(len, mtu, k);
      NextInOrder((k - 1) * mtu, mtu);
    }
  }

  lemma NoneInOrder(len: nat, mtu: nat)
    requires mtu > 0
    ensures ClaimsAfter(Cells(len, mtu), Upto(0)) == Prefix(0 * mtu)
  {
    hide Cells;
  }

  lemma InOrderStep(len: nat, mtu: nat, k: nat)
    requires mtu > 0 && 0 < k < |Cells(len, mtu)|
    ensures ClaimsAfter(Cells(len, mtu), Upto(k)) == AddClaim(ClaimsAfter(Cells(len, mtu), Upto(k - 1)), (k - 1) * mtu, mtu)
    ensures k * mtu == (k - 1) * mtu + mtu
  {
    hide AddClaim, Pieces;
    assert Upto(k)[..k - 1] == Upto(k - 1) && Upto(k)[k - 1] == k - 1;
    WholeCell(len, mtu, k - 1);
  }

  /** Everything but the last cell. */
  lemma AllButLast(len: nat, mtu: nat) returns (e: nat)
    requires mtu > 0 && len > 0 && |Cells(len, mtu)| >= 2
    ensures var n := |Cells(len, mtu)|; 0 < e == (n - 1) * mtu < len && ClaimsAfter(Cells(len, mtu), Upto(n - 1)) == [Claim(0, e)]
  {
    hide AddClaim, Pieces, ClaimsAfter;
    var n := |Cells(len, mtu)|;
    e := (n - 1) * mtu;
    MulMonotone(1, n - 1, mtu);
    CellCount(len, mtu);
    InOrder(len, mtu, n - 1);
  }

  lemma NextInOrder(e: nat, length: nat)
    requires length > 0
    ensures AddClaim(Prefix(e), e, length) == Prefix(e + length)
  {
    hide AddClaim;
    if e == 0 {
      FirstClaim(Claim(0, length));
    } else {
      Extends(e, Claim(e, length));
    }
  }

  /** Every cell but the last is a whole one. */
  lemma WholeCell(len: nat, mtu: nat, i: nat)
    requires mtu > 0 && i + 1 < |Cells(len, mtu)|
    ensures Cells(len, mtu)[i] == Claim(i * mtu, mtu)
  {
    PieceAt(0, len, mtu, i);
    PieceAt(0, len, mtu, i + 1);
    assert (i + 1) * mtu == i * mtu + mtu;
  }

  // ---- The last range asked for ----

  lemma {:induction false} LastGap(m: seq<Claim>, cursor: nat, upper: nat)
    requires Separated(m) && m != [] && cursor <= m[0].End() && m[|m| - 1].End() < upper
    ensures var g := Gaps(m, cursor, upper);
            g != [] && g[|g| - 1] == Claim(m[|m| - 1].End(), upper - m[|m| - 1].End())
    decreases |m|
  {
    var rest := m[1..];
    if rest != [] {
      assert forall i :: 0 <= i < |rest| ==> rest[i] == m[i + 1];
      assert m[0].End() < m[1].offset;
      LastGap(rest, m[0].End(), upper);
    } else {
      assert Gaps(rest, m[0].End(), upper) == [Claim(m[0].End(), upper - m[0].End())];
    }
  }

  lemma {:induction false} AllPiecesLast(gaps: seq<Claim>, mtu: nat)
    requires mtu > 0 && gaps != [] && gaps[|gaps| - 1].length > 0
    ensures var g := gaps[|gaps| - 1];
            var ps, last := AllPieces(gaps, mtu), Pieces(g.offset, g.End(), mtu);
            ps != [] && last != [] && ps[|ps| - 1] == last[|last| - 1]
    decreases |gaps|
  {
    var g := gaps[|gaps| - 1];
    LastPiece(g.offset, g.End(), mtu);
    if |gaps| > 1 {
      assert gaps[1..][|gaps| - 2] == g;
      AllPiecesLast(gaps[1..], mtu);
    } else {
      assert AllPieces(gaps[1..], mtu) == [];
    }
  }

  /** The last range asked for is the last piece of what follows the last claim. */
  lemma AskedLast(m: Claims, len: nat, mtu: nat)
    requires mtu > 0 && m != [] && m[|m| - 1].End() < len
    ensures var ps, last := Asked(m, len, mtu), Pieces(m[|m| - 1].End(), len, mtu);
            ps != [] && last != [] && ps[|ps| - 1] == last[|last| - 1]
  {
    LastGap(m, 0, len);
    AllPiecesLast(Gaps(m, 0, len), mtu);
  }

  // ---- Cells heard one after another ----

  ghost predicate NotLast(order: seq<nat>, n: nat) {
    forall k :: 0 <= k < |order| ==> order[k] + 1 < n
  }

  /** The receiver, having nothing, hears cells that are not the last, in the given order. */
  lemma {:induction false} HearCells(mtu: nat, s: System, b: seq<byte>, order: seq<nat>, rpt: nat) returns (s': System)
    requires 0 < mtu <= ROUND_MTU && Reachable(mtu, s) && Listens(s.b, [], 0, rpt) && rpt < INT64_LIMIT
    requires 0 < |b| <= MAX_BLOCK_SIZE && Within(Cells(|b|, mtu), 0, |b|)
    requires Carries(s.a.wire, b, Cells(|b|, mtu), RED_DATA_EORP_CP, 1) && NotLast(order, |Cells(|b|, mtu)|)
    ensures var claims := ClaimsAfter(Cells(|b|, mtu), order);
            && Reachable(mtu, s') && s'.a == s.a && s'.b.wire == s.b.wire && Listens(s'.b, claims, 0, rpt)
            && EndBy(claims, |b|)
    decreases |order|
  {
    var ps := Cells(|b|, mtu);
    if order == [] {
      s' := s;
    } else {
      hide AddClaim, Pieces, Listens, Seg, Reachable;
      var prev, i := order[..|order| - 1], order[|order| - 1];
      var s1 := HearCells(mtu, s, b, prev, rpt);
      WholeCell(|b|, mtu, i);
      assert Seg(b, RED_DATA, ps[i], 0) in s1.a.wire;
      s' := Hear(mtu, s1, b, RED_DATA, ps[i], 0, ClaimsAfter(ps, prev), rpt);
      Nowhere(s1.b.wire, Reply(b, RED_DATA, ps[i], 0, AddClaim(ClaimsAfter(ps, prev), ps[i].offset, ps[i].length), rpt));
    }
  }

  /**
   * The last act: all the cells but the last, then the block's end as a plain checkpoint. The receiver reports
   * the whole block without knowing that it is, and the sender counts the session as completed.
   */
  lemma Ending(mtu: nat, s: System, b: seq<byte>, e: nat, r: Claim, serial: nat, cp: nat) returns (s': System)
    requires 0 < mtu <= ROUND_MTU && Reachable(mtu, s) && Listens(s.b, [], 0, 1) && Sends(s.a, b, mtu, cp)
    requires 0 < |b| <= MAX_BLOCK_SIZE && Within(Cells(|b|, mtu), 0, |b|) && |Cells(|b|, mtu)| >= 2
    requires 0 < e && ClaimsAfter(Cells(|b|, mtu), Upto(|Cells(|b|, mtu)| - 1)) == [Claim(0, e)]
    requires Carries(s.a.wire, b, Cells(|b|, mtu), RED_DATA_EORP_CP, 1)
    requires r.End() == |b| && 0 < r.length <= ROUND_MTU && r.offset <= e <= |b| && serial < INT64_LIMIT
    requires Seg(b, RED_DATA_CP, r, serial) in s.a.wire
    ensures Lost(mtu, s', b)
  {
    hide AddClaim, Pieces, Listens, Seg, Reachable, Carries, Sends, Full, RoundReport, ClaimsAfter, Upto;
    var s1 := HearCells(mtu, s, b, Upto(|Cells(|b|, mtu)| - 1), 1);
    Extends(e, r);
    var s2 := Hear(mtu, s1, b, RED_DATA_CP, r, serial, [Claim(0, e)], 1);
    Whole(|b|);
    Replied(s1.b.wire, s2.b.wire, RoundReport(BOB, 1, 1, serial, |b|, [Claim(0, |b|)]));
    s' := Finish(mtu, s2, b, [Claim(0, |b|)], 1, serial, cp);
    Logged(s2.b, [Claim(0, |b|)], 0, 2);
  }

  lemma Whole(len: nat)
    requires len > 0
    ensures Full([Claim(0, len)], len) && EndBy([Claim(0, len)], len)
  {
  }

  lemma Replied(a: seq<Segment>, w: seq<Segment>, r: Segment)
    requires w == a + [r]
    ensures r in w
  {
    assert w[|a|] == r;
  }

  lemma Logged(q: Party, claims: Claims, len: nat, rpt: nat)
    requires Listens(q, claims, len, rpt)
    ensures q.log == []
  {
  }

  /** The sender's only session is completed, and the receiver has delivered nothing at all. */
  ghost predicate Lost(mtu: nat, s: System, b: seq<byte>)
    requires mtu > 0
  {
    && Reachable(mtu, s) && s.a.blocks == map[1 := b] && s.b.log == []
    && |s.a.engine.exports| > 0 && s.a.engine.exports[0].completed && s.a.engine.exports[0].session == 1
  }

  // ---- A map without room for the end ----

  lemma EvenEnds(len: nat, mtu: nat)
    requires mtu > 0 && 31 * mtu < len
    ensures var l := EvenList(16, mtu); Separated(l) && l[15].End() == 31 * mtu && EndBy(l, len)
  {
    hide Grid;
    EvenListOnCuts(16, len, mtu);
  }

  /** After the even cells the map is full, and the last cell finds no room. */
  lemma NoRoom(m: Claims, r: Claim)
    requires |m| == MAX_CLAIMS && r.length > 0 && forall i :: 0 <= i < |m| ==> m[i].End() < r.offset
    ensures AddClaim(m, r.offset, r.length) == m
    ensures forall n: nat :: !Full(m, n)
  {
    AppendClaim(m, r.offset, r.length);
  }

  lemma LastCarried(wire: seq<Segment>, b: seq<byte>, ps: seq<Claim>, lastKind: nat, serial: nat)
    requires Within(ps, 0, |b|) && ps != [] && Carries(wire, b, ps, lastKind, serial)
    ensures Seg(b, lastKind, ps[|ps| - 1], serial) in wire
  {
  }

  lemma StillCarries(w: seq<Segment>, z: seq<Segment>, b: seq<byte>, ps: seq<Claim>, lastKind: nat, serial: nat)
    requires Within(ps, 0, |b|) && Carries(w, b, ps, lastKind, serial) && forall g :: g in w ==> g in z
    ensures Carries(z, b, ps, lastKind, serial)
  {
    hide Seg;
  }

  /** A block of more than k MTUs has a cell k. */
  lemma CellsBeyond(len: nat, mtu: nat, k: nat)
    requires mtu > 0 && k * mtu < len
    ensures k < |Cells(len, mtu)|
  {
    CellAt(0, len, mtu, k);
  }

  lemma EvensNotLast(k: nat, n: nat)
    requires k == 0 || 2 * k - 1 < n
    ensures NotLast(Evens(k), n) && Indices(Evens(k), n)
  {
  }

  lemma EvensBelow(k: nat, len: nat, mtu: nat, r: Claim)
    requires mtu > 0 && 0 < k <= 16 && (2 * k - 1) * mtu < len && (2 * k - 1) * mtu < r.offset
    ensures forall i :: 0 <= i < k ==> EvenList(k, mtu)[i].End() < r.offset
  {
    hide EvenList;
    EvenListOnCuts(k, len, mtu);
  }

  /**
   * The block's end is lost: the full map has no room for the last cell, the sender is told so and repeats what
   * is missing with the end as a plain checkpoint, and the receiver gives the session up.
   */
  lemma LoseEnd(mtu: nat, s: System, b: seq<byte>, m: Claims, rpt: nat, cp: nat) returns (s': System)
    requires 0 < mtu <= ROUND_MTU && Reachable(mtu, s) && Listens(s.b, m, 0, rpt) && Sends(s.a, b, mtu, cp)
    requires rpt < INT64_LIMIT && cp < INT64_LIMIT && 0 < |b| <= MAX_BLOCK_SIZE
    requires var ps := Cells(|b|, mtu);
             && Within(ps, 0, |b|) && ps != [] && Carries(s.a.wire, b, ps, RED_DATA_EORP_CP, 1)
             && |m| == MAX_CLAIMS && EndBy(m, |b|) && forall i :: 0 <= i < |m| ==> m[i].End() < ps[|ps| - 1].offset
    ensures Reachable(mtu, s') && Listens(s'.b, [], 0, 1) && Sends(s'.a, b, mtu, cp + 1)
    ensures var ps, asked := Cells(|b|, mtu), Asked(m, |b|, mtu);
            && Within(ps, 0, |b|) && Carries(s'.a.wire, b, ps, RED_DATA_EORP_CP, 1)
            && asked != [] && Within(asked, 0, |b|) && Seg(b, RED_DATA_CP, asked[|asked| - 1], cp) in s'.a.wire
  {
    var ps := Cells(|b|, mtu);
    var r := ps[|ps| - 1];
    CellCount(|b|, mtu);
    LastPiece(0, |b|, mtu);
    hide AddClaim, Pieces, Listens, Seg, Reachable, Carries, Sends, Full, RoundReport, Asked;
    NoRoom(m, r);
    LastCarried(s.a.wire, b, ps, RED_DATA_EORP_CP, 1);
    var s2 := Hear(mtu, s, b, RED_DATA_EORP_CP, r, 1, m, rpt);
    Replied(s.b.wire, s2.b.wire, RoundReport(BOB, 1, rpt, 1, |b|, m));
    var s3 := Ask(mtu, s2, b, m, rpt, 1, cp);
    s' := Forget(mtu, s3, m, |b|, rpt + 1);
    LastCarried(s'.a.wire, b, Asked(m, |b|, mtu), RED_DATA_CP, cp);
    StillCarries(s.a.wire, s'.a.wire, b, ps, RED_DATA_EORP_CP, 1);
  }

  // ---- More than 32 MTUs ----

  /** What the sender asks for last starts no later than the block's last cell. */
  lemma LastOfLong(m: Claims, len: nat, mtu: nat)
    requires mtu > 0 && 32 * mtu < len && m != [] && m[|m| - 1].End() == 31 * mtu
    ensures var ps, n := Asked(m, len, mtu), |Cells(len, mtu)|;
            && n > 0 && ps != []
            && var r := ps[|ps| - 1]; r.End() == len && 0 < r.length <= mtu && r.offset <= (n - 1) * mtu
  {
    hide Asked;
    var n := |Cells(len, mtu)|;
    AskedLast(m, len, mtu);
    LastPiece(31 * mtu, len, mtu);
    CellCount(len, mtu);
    NoLater(31, |Pieces(31 * mtu, len, mtu)| - 1, n, len, mtu);
  }

  lemma NoLater(i: nat, k: nat, n: nat, len: nat, mtu: nat)
    requires i * mtu + k * mtu < len <= n * mtu && mtu > 0
    ensures n > 0 && i * mtu + k * mtu <= (n - 1) * mtu
  {
    assert (i + k) * mtu == i * mtu + k * mtu;
    if i + k >= n {
      MulMonotone(n, i + k, mtu);
    } else {
      MulMonotone(i + k, n - 1, mtu);
    }
  }

  /** The even cells: none of them the last, and together a map without room for it. */
  lemma LongMap(len: nat, mtu: nat) returns (m: Claims)
    requires mtu > 0 && 32 * mtu < len
    ensures var ps := Cells(len, mtu);
            && |ps| >= 33 && NotLast(Evens(16), |ps|) && Indices(Evens(16), |ps|) && m == ClaimsAfter(ps, Evens(16))
            && |m| == MAX_CLAIMS && m[15].End() == 31 * mtu && EndBy(m, len)
            && forall i :: 0 <= i < |m| ==> m[i].End() < ps[|ps| - 1].offset
  {
    hide Pieces, EvenList, ClaimsAfter;
    var n := |Cells(len, mtu)|;
    CellsBeyond(len, mtu, 32);
    EvensNotLast(16, n);
    EvenClaims(len, mtu, 16);
    EvenEnds(len, mtu);
    m := EvenList(16, mtu);
    CellCount(len, mtu);
    MulMonotone(32, n - 1, mtu);
    EvensBelow(16, len, mtu, Cells(len, mtu)[n - 1]);
  }

  /** The ranges of the run: the map m, all but the last cell up to e, and the range r that ends the block. */
  lemma LongPlan(len: nat, mtu: nat) returns (m: Claims, e: nat, r: Claim)
    requires mtu > 0 && 32 * mtu < len
    ensures var ps, asked := Cells(len, mtu), Asked(m, len, mtu);
            && |ps| >= 2 && NotLast(Evens(16), |ps|) && Indices(Evens(16), |ps|) && m == ClaimsAfter(ps, Evens(16))
            && |m| == MAX_CLAIMS && EndBy(m, len) && (forall i :: 0 <= i < |m| ==> m[i].End() < ps[|ps| - 1].offset)
            && 0 < e < len && ClaimsAfter(ps, Upto(|ps| - 1)) == [Claim(0, e)]
            && asked != [] && asked[|asked| - 1] == r && r.End() == len && 0 < r.length <= mtu && r.offset <= e
  {
    hide Pieces, ClaimsAfter, Evens, Upto, EndBy, Asked;
    m := LongMap(len, mtu);
    LastOfLong(m, len, mtu);
    r := Asked(m, len, mtu)[|Asked(m, len, mtu)| - 1];
    e := AllButLast(len, mtu);
  }

  /** The even cells, the lost end, and the session given up. */
  lemma LongStart(mtu: nat, b: seq<byte>, m: Claims) returns (s: System)
    requires 0 < mtu <= ROUND_MTU && 32 * mtu < |b| <= MAX_BLOCK_SIZE
    requires var ps := Cells(|b|, mtu);
             && ps != [] && NotLast(Evens(16), |ps|) && Indices(Evens(16), |ps|) && m == ClaimsAfter(ps, Evens(16))
             && |m| == MAX_CLAIMS && forall i :: 0 <= i < |m| ==> m[i].End() < ps[|ps| - 1].offset
    ensures Reachable(mtu, s) && Listens(s.b, [], 0, 1) && Sends(s.a, b, mtu, 3)
    ensures var ps, asked := Cells(|b|, mtu), Asked(m, |b|, mtu);
            && Within(ps, 0, |b|) && Carries(s.a.wire, b, ps, RED_DATA_EORP_CP, 1)
            && asked != [] && Within(asked, 0, |b|) && Seg(b, RED_DATA_CP, asked[|asked| - 1], 2) in s.a.wire
  {
    assert 2 < INT64_LIMIT;
    hide *;
    var s0 := Begin(mtu, b);
    var s1 := HearCells(mtu, s0, b, Evens(16), 1);
    s := LoseEnd(mtu, s1, b, m, 1, 2);
  }

  lemma LongLost(mtu: nat, b: seq<byte>) returns (s: System)
    requires 0 < mtu <= ROUND_MTU && 32 * mtu < |b| <= MAX_BLOCK_SIZE
    ensures Lost(mtu, s, b)
  {
    assert 2 < INT64_LIMIT;
    hide *;
    var s1, e, r := LongBegin(mtu, b);
    s := Ending(mtu, s1, b, e, r, 2, 3);
  }

  /** All that the ending needs: the sender's segments on the wire, and the receiver without the session. */
  lemma LongBegin(mtu: nat, b: seq<byte>) returns (s: System, e: nat, r: Claim)
    requires 0 < mtu <= ROUND_MTU && 32 * mtu < |b| <= MAX_BLOCK_SIZE
    ensures Reachable(mtu, s) && Listens(s.b, [], 0, 1) && Sends(s.a, b, mtu, 3)
    ensures Within(Cells(|b|, mtu), 0, |b|) && |Cells(|b|, mtu)| >= 2
    ensures 0 < e && ClaimsAfter(Cells(|b|, mtu), Upto(|Cells(|b|, mtu)| - 1)) == [Claim(0, e)]
    ensures Carries(s.a.wire, b, Cells(|b|, mtu), RED_DATA_EORP_CP, 1)
    ensures r.End() == |b| && 0 < r.length <= mtu && r.offset <= e <= |b| && Seg(b, RED_DATA_CP, r, 2) in s.a.wire
  {
    hide *;
    var m: Claims;
    m, e, r := LongPlan(|b|, mtu);
    s := LongStart(mtu, b, m);
  }

  // ---- Between 31 and 32 MTUs ----

  /** The end of the tail checkpoint's absence: what is asked for last is all but the tail, short of its start. */
  lemma AskedBeforeTail(len: nat, mtu: nat)
    requires mtu > 0 && 31 * mtu < len < 32 * mtu
    ensures var m: Claims := [Claim(len - mtu, mtu)];
            var ps := Asked(m, len, mtu);
            ps != [] && ps[|ps| - 1] == Claim(30 * mtu, len - 31 * mtu)
  {
    var m: Claims := [Claim(len - mtu, mtu)];
    var end := len - mtu;
    assert Gaps(m, 0, len) == [Claim(0, end)];
    assert AllPieces([Claim(0, end)], mtu) == Pieces(0, end, mtu) + [];
    LastPiece(0, end, mtu);
    ThirtyFirst(|Pieces(0, end, mtu)| - 1, end, mtu);
  }

  lemma ThirtyFirst(k: nat, end: nat, mtu: nat)
    requires mtu > 0 && 30 * mtu < end < 31 * mtu && k * mtu < end <= k * mtu + mtu
    ensures k == 30
  {
    assert (k + 1) * mtu == k * mtu + mtu;
    if k >= 31 {
      MulMonotone(31, k, mtu);
    } else if k < 30 {
      MulMonotone(k + 1, 30, mtu);
    }
  }

  /** Such a block has 32 cells, and the last of them is short. */
  lemma ThirtyTwoCells(len: nat, mtu: nat)
    requires mtu > 0 && 31 * mtu < len < 32 * mtu
    ensures |Cells(len, mtu)| == 32 && Cells(len, mtu)[31] == Claim(31 * mtu, len - 31 * mtu)
  {
    hide Pieces;
    CellCount(len, mtu);
    var n := |Cells(len, mtu)|;
    assert n * mtu == (n - 1) * mtu + mtu;
    if n > 32 {
      MulMonotone(32, n - 1, mtu);
    } else if n < 32 {
      MulMonotone(n, 31, mtu);
    }
  }

  /** Fifteen even cells and the piece before the tail fill the map short of the last cell. */
  lemma TailMap(len: nat, mtu: nat) returns (m: Claims)
    requires mtu > 0 && 31 * mtu < len < 32 * mtu
    ensures |m| == 16 && m[15] == Claim(30 * mtu, len - 31 * mtu) && EndBy(m, len)
    ensures forall i :: 0 <= i < 16 ==> m[i].End() < 31 * mtu
    ensures var l := EvenList(15, mtu); Separated(l) && AddClaim(l, 30 * mtu, len - 31 * mtu) == m
  {
    hide EvenList;
    EvenListOnCuts(15, len, mtu);
    var l: Claims := EvenList(15, mtu);
    m := CrowdedTail(l, Claim(30 * mtu, len - 31 * mtu));
    AppendClaim(l, 30 * mtu, len - 31 * mtu);
  }

  /** After such a map, what is asked for last is the tail. */
  lemma AskedTail(m: Claims, len: nat, mtu: nat)
    requires mtu > 0 && 31 * mtu < len && m != [] && m[|m| - 1].End() == len - mtu
    ensures var ps := Asked(m, len, mtu); ps != [] && ps[|ps| - 1] == Claim(len - mtu, mtu)
  {
    AskedLast(m, len, mtu);
    assert Pieces(len - mtu, len, mtu) == [Claim(len - mtu, mtu)] + Pieces(len, len, mtu);
    assert Pieces(len, len, mtu) == [];
  }

  /** The tail checkpoint arrives alone; what is before it is asked for, and the session given up. */
  lemma TailFirst(mtu: nat, b: seq<byte>) returns (s: System)
    requires 0 < mtu <= ROUND_MTU && 31 * mtu < |b| < 32 * mtu && |b| <= MAX_BLOCK_SIZE
    ensures Reachable(mtu, s) && Listens(s.b, [], 0, 1) && Sends(s.a, b, mtu, 4)
    ensures var ps := Cells(|b|, mtu); Within(ps, 0, |b|) && Carries(s.a.wire, b, ps, RED_DATA_EORP_CP, 1)
    ensures Seg(b, RED_DATA_CP, Claim(30 * mtu, |b| - 31 * mtu), 3) in s.a.wire
  {
    hide AddClaim, Pieces, Listens, Seg, Reachable, Carries, Sends, Full, RoundReport, Asked;
    var len, tail := |b|, Claim(|b| - mtu, mtu);
    var m: Claims := [tail];
    var s0 := Begin(mtu, b);
    var s1 := Timeout(mtu, s0, b);
    FirstClaim(tail);
    TailOnly(m, len);
    assert s1.a.wire[|s0.a.wire|] == Seg(b, RED_DATA_EORP_CP, tail, 2);
    var s2 := Hear(mtu, s1, b, RED_DATA_EORP_CP, tail, 2, [], 1);
    Replied(s1.b.wire, s2.b.wire, RoundReport(BOB, 1, 1, 2, len, m));
    var s3 := Ask(mtu, s2, b, m, 1, 2, 3);
    s := Forget(mtu, s3, m, len, 2);
    AskedBeforeTail(len, mtu);
    LastCarried(s.a.wire, b, Asked(m, len, mtu), RED_DATA_CP, 3);
    StillCarries(s0.a.wire, s.a.wire, b, Cells(len, mtu), RED_DATA_EORP_CP, 1);
  }

  lemma TailOnly(m: Claims, len: nat)
    requires |m| == 1 && m[0].offset > 0 && m[0].End() == len
    ensures !Full(m, len) && EndBy(m, len) && EndBy([], len)
  {
  }

  lemma MiddleLost(mtu: nat, b: seq<byte>) returns (s: System)
    requires 0 < mtu <= ROUND_MTU && 31 * mtu < |b| < 32 * mtu && |b| <= MAX_BLOCK_SIZE
    ensures Lost(mtu, s, b)
  {
    hide AddClaim, Pieces, Listens, Seg, Reachable, Carries, Sends, Asked, EvenList, Lost, EndBy;
    var len, r := |b|, Claim(30 * mtu, |b| - 31 * mtu);
    ThirtyTwoCells(len, mtu);
    EvensNotLast(15, 32);
    var s0 := TailFirst(mtu, b);
    var s1 := HearCells(mtu, s0, b, Evens(15), 1);
    EvenClaims(len, mtu, 15);
    var m := TailMap(len, mtu);
    var s2 := Hear(mtu, s1, b, RED_DATA_CP, r, 3, EvenList(15, mtu), 1);
    var s3 := LoseEnd(mtu, s2, b, m, 2, 4);
    AskedTail(m, len, mtu);
    var e := AllButLast(len, mtu);
    s := Ending(mtu, s3, b, e, Claim(len - mtu, mtu), 4, 5);
  }

  // ---- The bound ----

  /** A run of two engines in which a session is completed at the sender and its block is not delivered. */
  ghost predicate Undelivered(c: Config, id: nat, d: Config, id': nat, steps: seq<Step>, i: nat, b: seq<byte>) {
    && ConfigOk(c) && ConfigOk(d)
    && var s := Run(Started2(c, id, d, id'), steps);
       && i < |s.a.engine.exports| && s.a.engine.exports[i].completed
       && s.a.engine.exports[i].session in s.a.blocks && s.a.blocks[s.a.engine.exports[i].session] == b
       && Delivery(id, s.a.engine.exports[i].session, b) !in s.b.log
  }

  /**
   * Completed does not mean delivered: a block can be counted as completed and never delivered exactly when it
   * is not roomy, that is, longer than 31 MTUs and not exactly 32.
   */
  lemma CompletedUndeliveredIff(mtu: nat, b: seq<byte>)
    requires mtu > 0 && 0 < |b| <= MAX_BLOCK_SIZE
    ensures (exists c: Config, id: nat, d: Config, id': nat, steps: seq<Step>, i: nat ::
               c.mtu == mtu && Undelivered(c, id, d, id', steps, i, b))
            <==> !Roomy(|b|, mtu)
  {
    if Roomy(|b|, mtu) {
      forall c: Config, id: nat, d: Config, id': nat, steps: seq<Step>, i: nat
        | c.mtu == mtu && Undelivered(c, id, d, id', steps, i, b)
        ensures false
      {
        CompletedIsHeld(c, id, d, id', steps, true, i);
      }
    } else {
      var steps := LosingRun(mtu, b);
    }
  }

  lemma LosingRun(mtu: nat, b: seq<byte>) returns (steps: seq<Step>)
    requires mtu > 0 && 0 < |b| <= MAX_BLOCK_SIZE && !Roomy(|b|, mtu)
    ensures SenderConfig(mtu).mtu == mtu
    ensures Undelivered(SenderConfig(mtu), ALICE, ReceiverConfig(mtu), BOB, steps, 0, b)
  {
    hide Run;
    var s: System;
    if |b| > 32 * mtu {
      s := LongLost(mtu, b);
    } else {
      s := MiddleLost(mtu, b);
    }
    steps :| Run(Start(mtu), steps) == s;
  }
}
