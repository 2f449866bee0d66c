/**
 * When sixteen claims are enough. All segments of a block start and end on a few cut points; between k
 * separated claims and one more there are at least 2k + 2 different ones.
 */
module ClaimRoom {
  import opened ClaimMap
  import opened Division
  import opened LtpSegmentation

  /** The cut points of a block: multiples of the MTU, its end, and the start of its tail checkpoint. */
  predicate OnGrid(x: nat, len: nat, mtu: nat)
    requires mtu > 0
  {
    x == len || (x < len && x % mtu == 0) || (len > mtu && x == len - mtu)
  }

  /** At most 33 cut points: what a sender can check before it sends. */
  predicate Roomy(len: nat, mtu: nat) {
    len <= 31 * mtu || len == 32 * mtu
  }

  function Grid(len: nat, mtu: nat): nat -> bool
    requires mtu > 0
  {
    (x: nat) => OnGrid(x, len, mtu)
  }

  /** Every claim starts and ends on a point of g. */
  ghost predicate ClaimsAt(m: seq<Claim>, g: nat -> bool) {
    forall i :: 0 <= i < |m| ==> g(m[i].offset) && g(m[i].End())
  }

  ghost predicate EndBy(m: seq<Claim>, len: nat) {
    forall i :: 0 <= i < |m| ==> m[i].End() <= len
  }

  /** Number of cut points below x. */
  function Rank(x: nat, len: nat, mtu: nat): nat
    requires mtu > 0
  {
    CeilDiv(x, mtu) + if len > mtu && len % mtu != 0 && x > len - mtu then 1 else 0
  }

  lemma RankStrict(x: nat, y: nat, len: nat, mtu: nat)
    requires mtu > 0 && x < y && y <= len && OnGrid(x, len, mtu)
    ensures Rank(x, len, mtu) < Rank(y, len, mtu)
  {
    if x % mtu == 0 {
      CeilDivStrict(x, y, mtu);
    } else {
      assert x == len - mtu && len > mtu;
      assert len % mtu != 0 by { TailOffGrid(len, mtu); }
      CeilDivMonotone(x, y, mtu);
    }
  }

  lemma TailOffGrid(len: nat, mtu: nat)
    requires mtu > 0 && len > mtu && (len - mtu) % mtu != 0
    ensures len % mtu != 0
  {
    if len % mtu == 0 {
      var q := len / mtu;
      assert len - mtu == (q - 1) * mtu;
      MultipleMod(q - 1, mtu);
      assert false;
    }
  }

  lemma MultipleMod(q: nat, mtu: nat)
    requires mtu > 0
    ensures (q * mtu) % mtu == 0
  {
    var x := q * mtu;
    DivMulBound(x, mtu, q);
    DivMulBound(x, mtu, q + 1);
    assert x / mtu == q;
  }

  lemma RankOfEnd(len: nat, mtu: nat)
    requires mtu > 0 && Roomy(len, mtu)
    ensures Rank(len, len, mtu) <= 32
  {
    if len <= 31 * mtu {
      assert (31 + 1) * mtu == 31 * mtu + mtu;
      DivMulBound(len + mtu - 1, mtu, 32);
    } else {
      MultipleMod(32, mtu);
      assert (32 + 1) * mtu == 32 * mtu + mtu;
      DivMulBound(len + mtu - 1, mtu, 33);
    }
  }

  /** r ranks the points of g up to len, and ranks len at most 32. */
  ghost predicate Ranked(g: nat -> bool, r: nat -> nat, len: nat) {
    && r(len) <= 2 * MAX_CLAIMS
    && forall x: nat, y: nat :: x < y <= len && g(x) ==> r(x) < r(y)
  }

  /** Claim after claim, each one starts two ranks further on. */
  lemma {:induction false} ClaimRanks(m: seq<Claim>, k: nat, g: nat -> bool, r: nat -> nat, len: nat)
    requires Ranked(g, r, len) && Separated(m) && ClaimsAt(m, g) && EndBy(m, len) && k < |m|
    ensures 2 * k + 1 <= r(m[k].End()) <= r(len)
  {
    if k > 0 {
      ClaimRanks(m, k - 1, g, r, len);
      assert m[k - 1].End() < m[k].offset;
      assert r(m[k - 1].End()) < r(m[k].offset);
    }
    assert r(m[k].offset) < r(m[k].End());
    assert m[k].End() < len ==> r(m[k].End()) < r(len);
  }

  /** Separated claims on points with at most 33 ranks never number more than sixteen. */
  lemma RankedCount(m: seq<Claim>, g: nat -> bool, r: nat -> nat, len: nat)
    requires Ranked(g, r, len) && Separated(m) && ClaimsAt(m, g) && EndBy(m, len)
    ensures |m| <= MAX_CLAIMS
  {
    if |m| > MAX_CLAIMS {
      ClaimRanks(m, MAX_CLAIMS, g, r, len);
      assert false;
    }
  }

  lemma NeverDroppedOn(m: Claims, offset: nat, length: nat, g: nat -> bool, r: nat -> nat, len: nat)
    requires Ranked(g, r, len) && ClaimsAt(m, g) && EndBy(m, len)
    requires g(offset) && g(offset + length) && offset + length <= len
    ensures !Drops(m, offset, length)
  {
    if Drops(m, offset, length) {
      var longer := Inserted(m, offset, length, g, len);
      RankedCount(longer, g, r, len);
      assert false;
    }
  }

  lemma GridRanked(len: nat, mtu: nat)
    requires mtu > 0 && Roomy(len, mtu)
    ensures Ranked(Grid(len, mtu), (x: nat) => Rank(x, len, mtu), len)
  {
    var g, r := Grid(len, mtu), (x: nat) => Rank(x, len, mtu);
    RankOfEnd(len, mtu);
    forall x: nat, y: nat | x < y <= len && g(x) ensures r(x) < r(y) {
      RankStrict(x, y, len, mtu);
    }
  }

  /** No claim of a roomy block is ever dropped, whatever arrived before and in whatever order. */
  lemma NeverDropped(m: Claims, offset: nat, length: nat, len: nat, mtu: nat)
    requires mtu > 0 && Roomy(len, mtu) && ClaimsAt(m, Grid(len, mtu)) && EndBy(m, len)
    requires OnGrid(offset, len, mtu) && OnGrid(offset + length, len, mtu) && offset + length <= len
    ensures !Drops(m, offset, length)
  {
    GridRanked(len, mtu);
    assert Grid(len, mtu)(offset) && Grid(len, mtu)(offset + length);
    NeverDroppedOn(m, offset, length, Grid(len, mtu), (x: nat) => Rank(x, len, mtu), len);
  }

  /** A range that touches no claim makes a separated list one longer. */
  lemma Inserted(m: Claims, offset: nat, length: nat, g: nat -> bool, len: nat) returns (r: seq<Claim>)
    requires Drops(m, offset, length) && ClaimsAt(m, g) && EndBy(m, len)
    requires g(offset) && g(offset + length) && offset + length <= len
    ensures |r| == |m| + 1 && Separated(r) && ClaimsAt(r, g) && EndBy(r, len)
  {
    var lo, hi := Before(m, offset), UpTo(m, offset + length);
    RunOrder(m, lo, hi, offset, offset + length);
    if lo < hi {
      assert false;
    }
    var h := Claim(offset, length);
    SpliceSeparated(m, lo, hi, h);
    r := Splice(m, lo, hi, h);
    SpliceAt(m, lo, hi, h, g, len);
  }

  lemma SpliceAt(m: seq<Claim>, lo: nat, hi: nat, h: Claim, g: nat -> bool, len: nat)
    requires lo <= hi <= |m| && ClaimsAt(m, g) && g(h.offset) && g(h.End())
    ensures ClaimsAt(Splice(m, lo, hi, h), g)
    ensures EndBy(m, len) && h.End() <= len ==> EndBy(Splice(m, lo, hi, h), len)
  {
    var r := Splice(m, lo, hi, h);
    assert forall i :: 0 <= i < |r| ==> r[i] == if i < lo then m[i] else if i == lo then h else m[i - lo - 1 + hi];
  }

  // ---- The cut points are closed under what sender and receiver do ----

  lemma AddClaimAt(m: Claims, offset: nat, length: nat, g: nat -> bool, len: nat)
    requires ClaimsAt(m, g) && EndBy(m, len) && g(offset) && g(offset + length) && offset + length <= len
    ensures ClaimsAt(AddClaim(m, offset, length), g) && EndBy(AddClaim(m, offset, length), len)
  {
    if length > 0 && !Drops(m, offset, length) {
      var lo, hi := Before(m, offset), UpTo(m, offset + length);
      TouchedRun(m, offset, length);
      HullAt(m, lo, hi, Claim(offset, length), g, len);
      SpliceAt(m, lo, hi, Hull(m[lo..hi], Claim(offset, length)), g, len);
    }
  }

  lemma HullAt(m: seq<Claim>, lo: nat, hi: nat, r: Claim, g: nat -> bool, len: nat)
    requires lo <= hi <= |m| && ClaimsAt(m, g) && EndBy(m, len) && g(r.offset) && g(r.End()) && r.End() <= len
    ensures var h := Hull(m[lo..hi], r); g(h.offset) && g(h.End()) && h.End() <= len
  {
    if lo < hi {
      assert m[lo..hi][0] == m[lo] && m[lo..hi][hi - lo - 1] == m[hi - 1];
    }
  }

  lemma {:induction false} PiecesAt(start: nat, end: nat, len: nat, mtu: nat)
    requires mtu > 0 && end <= len && OnGrid(start, len, mtu) && OnGrid(end, len, mtu)
    ensures ClaimsAt(Pieces(start, end, mtu), Grid(len, mtu))
    decreases end - start
  {
    if start < end {
      var chunk := if end - start > mtu then mtu else end - start;
      GridStep(start, end, len, mtu);
      PiecesAt(start + chunk, end, len, mtu);
      AppendAt([Claim(start, chunk)], Pieces(start + chunk, end, mtu), Grid(len, mtu));
    }
  }

  lemma GridStep(start: nat, end: nat, len: nat, mtu: nat)
    requires mtu > 0 && start < end <= len && OnGrid(start, len, mtu) && OnGrid(end, len, mtu)
    ensures OnGrid(start + if end - start > mtu then mtu else end - start, len, mtu)
  {
    if end - start > mtu {
      StepMod(start, mtu);
    }
  }

  lemma StepMod(x: nat, mtu: nat)
    requires mtu > 0 && x % mtu == 0
    ensures (x + mtu) % mtu == 0
  {
    var q := x / mtu;
    assert x + mtu == (q + 1) * mtu;
    MultipleMod(q + 1, mtu);
  }

  lemma AppendAt(a: seq<Claim>, b: seq<Claim>, g: nat -> bool)
    requires ClaimsAt(a, g) && ClaimsAt(b, g)
    ensures ClaimsAt(a + b, g)
  {
  }

  lemma {:induction false} GapsAt(claims: seq<Claim>, cursor: nat, upper: nat, g: nat -> bool)
    requires ClaimsAt(claims, g) && g(cursor) && (cursor < upper ==> g(upper))
    ensures ClaimsAt(Gaps(claims, cursor, upper), g)
    decreases |claims|
  {
    if claims != [] {
      var c := claims[0];
      var next := if c.End() > cursor then c.End() else cursor;
      assert ClaimsAt(claims[1..], g);
      GapsAt(claims[1..], next, upper, g);
      AppendAt(if c.offset > cursor then [Claim(cursor, c.offset - cursor)] else [], Gaps(claims[1..], next, upper), g);
    }
  }

  lemma {:induction false} AllPiecesAt(gaps: seq<Claim>, len: nat, mtu: nat)
    requires mtu > 0 && ClaimsAt(gaps, Grid(len, mtu)) && EndBy(gaps, len)
    ensures ClaimsAt(AllPieces(gaps, mtu), Grid(len, mtu))
  {
    if gaps != [] {
      var g := Grid(len, mtu);
      assert g(gaps[0].offset) && g(gaps[0].End());
      PiecesAt(gaps[0].offset, gaps[0].End(), len, mtu);
      assert ClaimsAt(gaps[1..], g) && EndBy(gaps[1..], len);
      AllPiecesAt(gaps[1..], len, mtu);
      AppendAt(Pieces(gaps[0].offset, gaps[0].End(), mtu), AllPieces(gaps[1..], mtu), g);
    }
  }
}
