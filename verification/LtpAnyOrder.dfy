/**
 * Segmentation and reassembly in any order: the design promises that the segments of a block rebuild it
 * whatever order they arrive in. With sixteen claims that is so exactly up to 32 segments.
 */
module LtpAnyOrder {
  import opened Bytes
  import opened ClaimMap
  import opened ClaimRoom
  import opened Division
  import opened LtpSegment
  import opened LtpState
  import opened LtpSegmentation
  import opened LtpSteps
  import opened TwoPartyInvariant

  /** The ranges of a block's first transmission. */
  function Cells(len: nat, mtu: nat): (ps: seq<Claim>)
    requires mtu > 0
    ensures Ascending(ps) && forall i :: 0 <= i < |ps| ==> ps[i].End() <= len
  {
    PiecesExact(0, len, mtu);
    Pieces(0, len, mtu)
  }

  /** Each of the first n numbers once. */
  ghost predicate IsOrder(order: seq<nat>, n: nat) {
    && |order| == n
    && (forall k :: 0 <= k < |order| ==> order[k] < n)
    && (forall i: nat :: i < n ==> i in order)
    && (forall j, k :: 0 <= j < k < |order| ==> order[j] != order[k])
  }

  ghost predicate Indices(order: seq<nat>, n: nat) {
    forall k :: 0 <= k < |order| ==> order[k] < n
  }

  function CellKind(i: nat, n: nat): nat {
    if i + 1 == n then RED_DATA_EORP_CP else RED_DATA
  }

  /** A fresh import session after the given segments of the block, in the given order. */
  ghost function Reassemble(b: seq<byte>, mtu: nat, order: seq<nat>): Import
    requires mtu > 0 && |b| <= MAX_BLOCK_SIZE && Indices(order, |Cells(|b|, mtu)|)
  {
    if order == [] then OpenedImport(0, 0)
    else
      var ps := Cells(|b|, mtu);
      var i := order[|order| - 1];
      var m := Reassemble(b, mtu, order[..|order| - 1]);
      Accept(m, CellKind(i, |ps|), ps[i].offset, b[ps[i].offset..ps[i].End()])
  }

  /** The claims alone. */
  ghost function ClaimsAfter(ps: seq<Claim>, order: seq<nat>): Claims
    requires Indices(order, |ps|)
  {
    if order == [] then []
    else
      var i := order[|order| - 1];
      AddClaim(ClaimsAfter(ps, order[..|order| - 1]), ps[i].offset, ps[i].length)
  }

  lemma {:induction false} ReassembleClaims(b: seq<byte>, mtu: nat, order: seq<nat>)
    requires mtu > 0 && |b| <= MAX_BLOCK_SIZE && Indices(order, |Cells(|b|, mtu)|)
    ensures Reassemble(b, mtu, order).claims == ClaimsAfter(Cells(|b|, mtu), order)
  {
    if order != [] {
      ReassembleClaims(b, mtu, order[..|order| - 1]);
      ReassembleStep(b, mtu, order);
    }
  }

  /** One more segment: its range is claimed, its bytes copied, and the completion test made. */
  lemma ReassembleStep(b: seq<byte>, mtu: nat, order: seq<nat>)
    requires mtu > 0 && |b| <= MAX_BLOCK_SIZE && Indices(order, |Cells(|b|, mtu)|) && order != []
    ensures var ps := Cells(|b|, mtu);
            var prev, i := order[..|order| - 1], order[|order| - 1];
            var m, r := Reassemble(b, mtu, prev), Reassemble(b, mtu, order);
            && r.claims == AddClaim(m.claims, ps[i].offset, ps[i].length)
            && r.len == (if i + 1 == |ps| then ps[i].End() else m.len)
            && (r.complete <==> m.complete || (r.len > 0 && Full(r.claims, r.len)))
  {
    hide AddClaim, Pieces, Full;
  }

  // ---- What holds in any order, of any part of the block ----

  /** Some segment received so far carries byte x. */
  ghost predicate Received(ps: seq<Claim>, order: seq<nat>, x: nat)
    requires Indices(order, |ps|)
  {
    exists k :: 0 <= k < |order| && ps[order[k]].offset <= x < ps[order[k]].End()
  }

  ghost predicate OnlyFrom(claims: seq<Claim>, ps: seq<Claim>, order: seq<nat>)
    requires Indices(order, |ps|)
  {
    forall x: nat :: Covers(claims, x) ==> Received(ps, order, x)
  }

  lemma ReceivedStep(ps: seq<Claim>, order: seq<nat>, x: nat)
    requires Indices(order, |ps|) && order != []
    ensures var i := order[|order| - 1];
            Received(ps, order, x) <==> Received(ps, order[..|order| - 1], x) || ps[i].offset <= x < ps[i].End()
  {
    var prev := order[..|order| - 1];
    if Received(ps, order, x) {
      var k :| 0 <= k < |order| && ps[order[k]].offset <= x < ps[order[k]].End();
      assert k < |prev| ==> prev[k] == order[k];
    }
    if Received(ps, prev, x) {
      var k :| 0 <= k < |prev| && ps[prev[k]].offset <= x < ps[prev[k]].End();
      assert order[k] == prev[k];
    }
  }

  /** Claims are never more than what was received. */
  lemma {:induction false} ClaimsOnlyReceived(ps: seq<Claim>, order: seq<nat>)
    requires Indices(order, |ps|)
    ensures OnlyFrom(ClaimsAfter(ps, order), ps, order)
  {
    if order != [] {
      var prev, i := order[..|order| - 1], order[|order| - 1];
      ClaimsOnlyReceived(ps, prev);
      forall x: nat | Covers(ClaimsAfter(ps, order), x) ensures Received(ps, order, x) {
        CoveredBefore(ClaimsAfter(ps, prev), ps[i].offset, ps[i].length, x);
        ReceivedStep(ps, order, x);
      }
    }
  }

  /** The claimed bytes are the block's. */
  ghost predicate Faithful(b: seq<byte>, m: Import) {
    |b| <= MAX_BLOCK_SIZE && forall x: nat :: Covers(m.claims, x) ==> x < |b| && m.data[x] == b[x]
  }

  lemma {:induction false} ClaimedBytes(b: seq<byte>, mtu: nat, order: seq<nat>)
    requires mtu > 0 && |b| <= MAX_BLOCK_SIZE && Indices(order, |Cells(|b|, mtu)|)
    ensures Faithful(b, Reassemble(b, mtu, order))
  {
    if order != [] {
      var ps := Cells(|b|, mtu);
      var prev, i := order[..|order| - 1], order[|order| - 1];
      ClaimedBytes(b, mtu, prev);
      FaithfulStep(b, Reassemble(b, mtu, prev), CellKind(i, |ps|), ps[i].offset, b[ps[i].offset..ps[i].End()]);
    }
  }

  lemma FaithfulStep(b: seq<byte>, m: Import, kind: nat, offset: nat, payload: seq<byte>)
    requires |b| <= MAX_BLOCK_SIZE && offset + |payload| <= |b| && payload == b[offset..offset + |payload|]
    requires Faithful(b, m)
    ensures Faithful(b, Accept(m, kind, offset, payload))
  {
    AcceptData(b, m, kind, offset, payload);
  }

  // ---- Up to 32 segments ----

  predicate OnCell(x: nat, len: nat, mtu: nat)
    requires mtu > 0
  {
    x == len || (x < len && x % mtu == 0)
  }

  function CellGrid(len: nat, mtu: nat): nat -> bool
    requires mtu > 0
  {
    (x: nat) => OnCell(x, len, mtu)
  }

  lemma CellGridRanked(len: nat, mtu: nat)
    requires mtu > 0 && len <= 32 * mtu
    ensures Ranked(CellGrid(len, mtu), (x: nat) => CeilDiv(x, mtu), len)
  {
    var g, r := CellGrid(len, mtu), (x: nat) => CeilDiv(x, mtu);
    assert (32 + 1) * mtu == 32 * mtu + mtu;
    DivMulBound(len + mtu - 1, mtu, 33);
    forall x: nat, y: nat | x < y <= len && g(x) ensures r(x) < r(y) {
      CeilDivStrict(x, y, mtu);
    }
  }

  lemma {:induction false} PiecesOnCells(start: nat, len: nat, mtu: nat)
    requires mtu > 0 && start <= len && OnCell(start, len, mtu)
    ensures ClaimsAt(Pieces(start, len, mtu), CellGrid(len, mtu))
    decreases len - start
  {
    if start < len {
      var chunk := if len - start > mtu then mtu else len - start;
      if len - start > mtu {
        StepMod(start, mtu);
      }
      PiecesOnCells(start + chunk, len, mtu);
      AppendAt([Claim(start, chunk)], Pieces(start + chunk, len, mtu), CellGrid(len, mtu));
    }
  }

  /** Nothing received is ever lost: the map claims exactly what arrived. */
  lemma {:induction false} AllReceived(len: nat, mtu: nat, order: seq<nat>)
    requires mtu > 0 && len <= 32 * mtu && Indices(order, |Cells(len, mtu)|)
    ensures var claims := ClaimsAfter(Cells(len, mtu), order);
            && ClaimsAt(claims, CellGrid(len, mtu)) && EndBy(claims, len)
            && forall x: nat :: Covers(claims, x) <==> Received(Cells(len, mtu), order, x)
  {
    if order != [] {
      var ps := Cells(len, mtu);
      var prev, i := order[..|order| - 1], order[|order| - 1];
      AllReceived(len, mtu, prev);
      ReceiveCell(ClaimsAfter(ps, prev), ps, i, len, mtu);
      forall x: nat ensures Covers(ClaimsAfter(ps, order), x) <==> Received(ps, order, x) {
        AddClaimCovers(ClaimsAfter(ps, prev), ps[i].offset, ps[i].length, x);
        ReceivedStep(ps, order, x);
      }
    }
  }

  lemma ReceiveCell(claims: Claims, ps: seq<Claim>, i: nat, len: nat, mtu: nat)
    requires mtu > 0 && len <= 32 * mtu && ps == Cells(len, mtu) && i < |ps|
    requires ClaimsAt(claims, CellGrid(len, mtu)) && EndBy(claims, len)
    ensures !Drops(claims, ps[i].offset, ps[i].length)
    ensures var c := AddClaim(claims, ps[i].offset, ps[i].length); ClaimsAt(c, CellGrid(len, mtu)) && EndBy(c, len)
  {
    var g := CellGrid(len, mtu);
    CellGridRanked(len, mtu);
    PiecesOnCells(0, len, mtu);
    assert g(ps[i].offset) && g(ps[i].End());
    NeverDroppedOn(claims, ps[i].offset, ps[i].length, g, (x: nat) => CeilDiv(x, mtu), len);
    AddClaimAt(claims, ps[i].offset, ps[i].length, g, len);
  }

  lemma {:induction false} EndLearned(b: seq<byte>, mtu: nat, order: seq<nat>)
    requires mtu > 0 && 0 < |b| <= MAX_BLOCK_SIZE && Indices(order, |Cells(|b|, mtu)|)
    ensures var m := Reassemble(b, mtu, order);
            && m.len == (if |Cells(|b|, mtu)| - 1 in order then |b| else 0)
            && (order != [] && m.len > 0 && Full(m.claims, m.len) ==> m.complete)
  {
    hide Pieces, AddClaim;
    if order != [] {
      var ps := Cells(|b|, mtu);
      var prev, i := order[..|order| - 1], order[|order| - 1];
      EndLearned(b, mtu, prev);
      ReassembleStep(b, mtu, order);
      assert order == prev + [i];
      if i + 1 == |ps| {
        LastCellEnds(|b|, mtu);
      }
    }
  }

  lemma LastCellEnds(len: nat, mtu: nat)
    requires mtu > 0 && len > 0
    ensures var ps := Cells(len, mtu); ps != [] && ps[|ps| - 1].End() == len
  {
    var ps := Cells(len, mtu);
    PiecesExact(0, len, mtu);
    assert Covers(ps, len - 1);
    var j :| 0 <= j < |ps| && ps[j].offset <= len - 1 < ps[j].End();
    var k := |ps| - 1;
    assert ps[k].length > 0 && ps[k].End() <= len;
  }

  /** The session has the whole block and knows it. */
  ghost predicate Rebuilt(b: seq<byte>, m: Import) {
    m.complete && m.len == |b| && m.data[..m.len] == b
  }

  lemma SmallBlockRebuilt(b: seq<byte>, mtu: nat, order: seq<nat>)
    requires mtu > 0 && 0 < |b| <= MAX_BLOCK_SIZE && |b| <= 32 * mtu && IsOrder(order, |Cells(|b|, mtu)|)
    ensures Rebuilt(b, Reassemble(b, mtu, order))
  {
    var ps := Cells(|b|, mtu);
    var m := Reassemble(b, mtu, order);
    ReassembleClaims(b, mtu, order);
    AllReceived(|b|, mtu, order);
    ClaimedBytes(b, mtu, order);
    LastCellEnds(|b|, mtu);
    EndLearned(b, mtu, order);
    PiecesExact(0, |b|, mtu);
    forall x: nat | x < |b| ensures Covers(m.claims, x) {
      assert Covers(ps, x);
      var j :| 0 <= j < |ps| && ps[j].offset <= x < ps[j].End();
      assert j in order;
      var k :| 0 <= k < |order| && order[k] == j;
      assert Received(ps, order, x);
    }
    FullIffCovers(m.claims, |b|);
    FullData(b, m.data, m.claims);
  }

  // ---- From 33 segments on ----

  /** 0, 2, 4, ... : k of them. */
  ghost function Evens(k: nat): (e: seq<nat>)
    ensures |e| == k && forall i :: 0 <= i < k ==> e[i] == 2 * i
  {
    if k == 0 then [] else Evens(k - 1) + [2 * (k - 1)]
  }

  /** The numbers below n that are not among the first 17 even ones. */
  ghost function Others(n: nat): (o: seq<nat>)
    ensures forall i: nat :: i in o <==> i < n && !(i % 2 == 0 && i <= 32)
    ensures forall k :: 0 <= k < |o| ==> o[k] < n
    ensures forall j, k :: 0 <= j < k < |o| ==> o[j] < o[k]
    ensures |o| == if n <= 33 then n / 2 else n - 17
  {
    if n == 0 then []
    else if (n - 1) % 2 == 0 && n - 1 <= 32 then Others(n - 1)
    else Others(n - 1) + [n - 1]
  }

  /** Every other segment first: an order that overflows the claim map. */
  ghost function EvensFirst(n: nat): seq<nat>
    requires n >= 33
  {
    Evens(17) + Others(n)
  }

  lemma EvensFirstIsOrder(n: nat)
    requires n >= 33
    ensures IsOrder(EvensFirst(n), n)
  {
    var e, o := Evens(17), Others(n);
    var order := e + o;
    forall i: nat | i < n ensures i in order {
      if i % 2 == 0 && i <= 32 {
        assert e[i / 2] == i;
      } else {
        assert i in o;
      }
    }
    forall k | 0 <= k < |order| ensures order[k] < n {
      if k >= 17 { assert order[k] in o; }
    }
    forall j, k | 0 <= j < k < |order| ensures order[j] != order[k] {
      if j < 17 <= k { assert order[k] in o; }
    }
  }

  lemma {:induction false} CellAt(start: nat, len: nat, mtu: nat, i: nat)
    requires mtu > 0 && start + i * mtu < len
    ensures i < |Pieces(start, len, mtu)|
    ensures Pieces(start, len, mtu)[i].offset == start + i * mtu
    ensures start + (i + 1) * mtu <= len ==> Pieces(start, len, mtu)[i].length == mtu
    decreases i
  {
    assert (i + 1) * mtu == i * mtu + mtu;
    if i > 0 {
      assert i * mtu == (i - 1) * mtu + mtu;
      MulMonotone(1, i, mtu);
      CellAt(start + mtu, len, mtu, i - 1);
    }
  }

  /** A range beyond all claims is appended. */
  lemma AppendClaim(m: Claims, offset: nat, length: nat)
    requires length > 0 && forall i :: 0 <= i < |m| ==> m[i].End() < offset
    ensures |m| < MAX_CLAIMS ==> AddClaim(m, offset, length) == m + [Claim(offset, length)]
    ensures |m| == MAX_CLAIMS ==> AddClaim(m, offset, length) == m
  {
    assert Before(m, offset) == |m|;
    assert UpTo(m, offset + length) == |m|;
    if |m| < MAX_CLAIMS {
      assert m[|m|..|m|] == [];
      assert Splice(m, |m|, |m|, Claim(offset, length)) == m + [Claim(offset, length)];
    }
  }

  /** The claims that k even segments make. */
  ghost function EvenList(k: nat, mtu: nat): (l: seq<Claim>)
    ensures |l| == k && forall i :: 0 <= i < k ==> l[i] == Claim(2 * i * mtu, mtu)
  {
    if k == 0 then [] else EvenList(k - 1, mtu) + [Claim(2 * (k - 1) * mtu, mtu)]
  }

  /** After k even segments: k claims, if there was room for them. */
  lemma {:induction false} EvenClaims(len: nat, mtu: nat, k: nat)
    requires mtu > 0 && 31 * mtu < len && k <= 17 && (k == 17 ==> 32 * mtu < len)
    requires Indices(Evens(k), |Cells(len, mtu)|)
    ensures ClaimsAfter(Cells(len, mtu), Evens(k)) == EvenList(if k <= 16 then k else 16, mtu)
  {
    hide AddClaim, Pieces;
    if k > 0 {
      assert Evens(k)[..k - 1] == Evens(k - 1) && Evens(k)[k - 1] == 2 * (k - 1);
      EvenClaims(len, mtu, k - 1);
      NextEven(ClaimsAfter(Cells(len, mtu), Evens(k - 1)), len, mtu, k - 1);
    }
  }

  lemma NextEven(claims: Claims, len: nat, mtu: nat, k: nat)
    requires mtu > 0 && 31 * mtu < len && k <= 16 && (k == 16 ==> 32 * mtu < len) && claims == EvenList(k, mtu)
    requires 2 * k < |Cells(len, mtu)|
    ensures var c := Cells(len, mtu)[2 * k];
            AddClaim(claims, c.offset, c.length) == EvenList(if k < 16 then k + 1 else 16, mtu)
  {
    EvenCell(len, mtu, k);
    var c := Cells(len, mtu)[2 * k];
    forall i | 0 <= i < k ensures claims[i].End() < c.offset {
      EvenGap(i, k, mtu);
    }
    AppendClaim(claims, c.offset, c.length);
  }

  lemma EvenGap(i: nat, k: nat, mtu: nat)
    requires mtu > 0 && i < k
    ensures 2 * i * mtu + mtu < 2 * k * mtu
  {
    MulMonotone(2 * i + 2, 2 * k, mtu);
    assert (2 * i + 2) * mtu == 2 * i * mtu + 2 * mtu;
  }

  lemma EvenCell(len: nat, mtu: nat, k: nat)
    requires mtu > 0 && 31 * mtu < len && k <= 16 && (k == 16 ==> 32 * mtu < len)
    ensures 2 * k < |Cells(len, mtu)| && Cells(len, mtu)[2 * k].offset == 2 * k * mtu
    ensures k < 16 ==> Cells(len, mtu)[2 * k].length == mtu
    ensures Cells(len, mtu)[2 * k].length > 0
  {
    if k < 16 {
      MulMonotone(2 * k, 31, mtu);
      MulMonotone(2 * k + 1, 31, mtu);
    }
    CellAt(0, len, mtu, 2 * k);
  }

  /** What no later segment carries stays unclaimed. */
  lemma {:induction false} StaysUnclaimed(ps: seq<Claim>, order: seq<nat>, j: nat, x: nat)
    requires Indices(order, |ps|) && j <= |order| && !Covers(ClaimsAfter(ps, order[..j]), x)
    requires forall k :: j <= k < |order| ==> !(ps[order[k]].offset <= x < ps[order[k]].End())
    ensures !Covers(ClaimsAfter(ps, order), x)
  {
    if j < |order| {
      var prev, i := order[..|order| - 1], order[|order| - 1];
      assert prev[..j] == order[..j];
      StaysUnclaimed(ps, prev, j, x);
      AddClaimCovers(ClaimsAfter(ps, prev), ps[i].offset, ps[i].length, x);
    } else {
      assert order[..j] == order;
    }
  }

  /** The 17th even segment is dropped, and nothing later brings its first byte. */
  lemma EvensFirstLoses(len: nat, mtu: nat)
    requires mtu > 0 && 32 * mtu < len && |Cells(len, mtu)| >= 33
    requires Indices(EvensFirst(|Cells(len, mtu)|), |Cells(len, mtu)|)
    ensures !Covers(ClaimsAfter(Cells(len, mtu), EvensFirst(|Cells(len, mtu)|)), 32 * mtu)
  {
    var ps := Cells(len, mtu);
    var order, o := EvensFirst(|ps|), Others(|ps|);
    EvenClaims(len, mtu, 17);
    EvensMiss(ClaimsAfter(ps, Evens(17)), mtu);
    assert order[..17] == Evens(17);
    forall k | 17 <= k < |order| ensures !(ps[order[k]].offset <= 32 * mtu < ps[order[k]].End()) {
      assert order[k] == o[k - 17] && o[k - 17] in o;
      OtherCellMisses(len, mtu, order[k]);
    }
    StaysUnclaimed(ps, order, 17, 32 * mtu);
  }

  lemma EvensMiss(claims: Claims, mtu: nat)
    requires mtu > 0 && claims == EvenList(16, mtu)
    ensures !Covers(claims, 32 * mtu)
  {
    forall i | 0 <= i < 16 ensures claims[i].End() <= 32 * mtu {
      EvenGap(i, 16, mtu);
    }
  }

  lemma OtherCellMisses(len: nat, mtu: nat, i: nat)
    requires mtu > 0 && 32 * mtu < len && i < |Cells(len, mtu)| && i != 32
    ensures !(Cells(len, mtu)[i].offset <= 32 * mtu < Cells(len, mtu)[i].End())
  {
    var ps := Cells(len, mtu);
    CellAt(0, len, mtu, 32);
    if i < 32 {
      assert ps[i].End() <= ps[32].offset;
    } else {
      assert ps[32].End() <= ps[i].offset;
    }
  }

  lemma LargeBlockFails(b: seq<byte>, mtu: nat)
    requires mtu > 0 && 32 * mtu < |b| <= MAX_BLOCK_SIZE
    ensures var n := |Cells(|b|, mtu)|;
            n >= 33 && IsOrder(EvensFirst(n), n) && !Rebuilt(b, Reassemble(b, mtu, EvensFirst(n)))
  {
    CellAt(0, |b|, mtu, 32);
    var n := |Cells(|b|, mtu)|;
    EvensFirstIsOrder(n);
    EvensFirstLoses(|b|, mtu);
    NotRebuilt(b, mtu, EvensFirst(n));
  }

  lemma NotRebuilt(b: seq<byte>, mtu: nat, order: seq<nat>)
    requires mtu > 0 && 32 * mtu < |b| <= MAX_BLOCK_SIZE && Indices(order, |Cells(|b|, mtu)|)
    requires !Covers(ClaimsAfter(Cells(|b|, mtu), order), 32 * mtu)
    ensures !Rebuilt(b, Reassemble(b, mtu, order))
  {
    ReassembleClaims(b, mtu, order);
    CompleteMeansFull(b, mtu, order);
    var m := Reassemble(b, mtu, order);
    if m.complete {
      FullCovers(m.claims, |b|);
    }
  }

  lemma {:induction false} CompleteMeansFull(b: seq<byte>, mtu: nat, order: seq<nat>)
    requires mtu > 0 && 0 < |b| <= MAX_BLOCK_SIZE && Indices(order, |Cells(|b|, mtu)|)
    ensures var m := Reassemble(b, mtu, order); m.complete ==> Full(m.claims, |b|)
  {
    if order != [] {
      var ps := Cells(|b|, mtu);
      var prev, i := order[..|order| - 1], order[|order| - 1];
      var m := Reassemble(b, mtu, prev);
      CompleteMeansFull(b, mtu, prev);
      ReassembleStep(b, mtu, order);
      EndLearned(b, mtu, order);
      if m.complete {
        FullStays(m.claims, ps[i].offset, ps[i].length, |b|);
      }
    }
  }

  lemma FullStays(m: Claims, offset: nat, length: nat, len: nat)
    requires Full(m, len) && len > 0 && offset + length <= len
    ensures Full(AddClaim(m, offset, length), len)
  {
    if length > 0 && !Drops(m, offset, length) {
      assert Before(m, offset) == 0 && UpTo(m, offset + length) == 1;
      assert m[0..1] == m;
      assert Splice(m, 0, 1, Hull(m, Claim(offset, length))) == [Hull(m, Claim(offset, length))];
    }
  }

  /**
   * A block is rebuilt by its segments in every order exactly when there are at most 32 of them, that is,
   * when it is no longer than 32 MTUs.
   */
  lemma RebuiltInAnyOrderIff(b: seq<byte>, mtu: nat)
    requires mtu > 0 && 0 < |b| <= MAX_BLOCK_SIZE
    ensures (forall order: seq<nat> :: IsOrder(order, |Cells(|b|, mtu)|) ==> Rebuilt(b, Reassemble(b, mtu, order)))
            <==> |b| <= 32 * mtu
  {
    if |b| <= 32 * mtu {
      forall order: seq<nat> | IsOrder(order, |Cells(|b|, mtu)|) ensures Rebuilt(b, Reassemble(b, mtu, order)) {
        SmallBlockRebuilt(b, mtu, order);
      }
    } else {
      LargeBlockFails(b, mtu);
    }
  }

  // ---- Claims accuracy ----

  /** The claims are exactly the bytes received. */
  ghost predicate Accurate(ps: seq<Claim>, order: seq<nat>)
    requires Indices(order, |ps|)
  {
    forall x: nat :: Covers(ClaimsAfter(ps, order), x) <==> Received(ps, order, x)
  }

  /**
   * The claims are exactly the bytes received, for any of a block's segments, in any order and any number of
   * times, exactly when the block is no longer than 32 MTUs.
   */
  lemma ClaimsAccurateIff(len: nat, mtu: nat)
    requires mtu > 0
    ensures (forall order: seq<nat> :: Indices(order, |Cells(len, mtu)|) ==> Accurate(Cells(len, mtu), order))
            <==> len <= 32 * mtu
  {
    if len <= 32 * mtu {
      forall order: seq<nat> | Indices(order, |Cells(len, mtu)|) ensures Accurate(Cells(len, mtu), order) {
        AllReceived(len, mtu, order);
      }
    } else {
      CellAt(0, len, mtu, 32);
      EvensInaccurate(len, mtu);
    }
  }

  lemma EvensInaccurate(len: nat, mtu: nat)
    requires mtu > 0 && 32 * mtu < len && |Cells(len, mtu)| >= 33
    ensures Indices(Evens(17), |Cells(len, mtu)|) && !Accurate(Cells(len, mtu), Evens(17))
  {
    hide Pieces, ClaimsAfter;
    var ps := Cells(len, mtu);
    EvenClaims(len, mtu, 17);
    EvensMiss(ClaimsAfter(ps, Evens(17)), mtu);
    EvenCell(len, mtu, 16);
    assert Evens(17)[16] == 32;
    assert Received(ps, Evens(17), 32 * mtu);
  }

  // ---- Sixteen claims are enough exactly for roomy blocks ----

  /** Claims and a range whose ends are all cut points of a block. */
  ghost predicate OnCuts(m: Claims, offset: nat, length: nat, len: nat, mtu: nat)
    requires mtu > 0
  {
    && ClaimsAt(m, Grid(len, mtu)) && EndBy(m, len)
    && OnGrid(offset, len, mtu) && OnGrid(offset + length, len, mtu) && offset + length <= len
  }

  lemma EvenListOnCuts(k: nat, len: nat, mtu: nat)
    requires mtu > 0 && k <= 16 && (k > 0 ==> (2 * k - 1) * mtu < len)
    ensures var l := EvenList(k, mtu);
            && Separated(l) && ClaimsAt(l, Grid(len, mtu))
            && forall i :: 0 <= i < k ==> l[i].End() <= (2 * k - 1) * mtu
  {
    var l := EvenList(k, mtu);
    forall i | 0 <= i < k
      ensures l[i].End() <= (2 * k - 1) * mtu && OnGrid(l[i].offset, len, mtu) && OnGrid(l[i].End(), len, mtu)
    {
      MulMonotone(2 * i + 1, 2 * k - 1, mtu);
      assert (2 * i + 1) * mtu == 2 * i * mtu + mtu;
      MultipleMod(2 * i, mtu);
      MultipleMod(2 * i + 1, mtu);
    }
    forall i, j | 0 <= i < j < k ensures l[i].End() < l[j].offset {
      EvenGap(i, j, mtu);
    }
  }

  /** For every other block there is a full map, on its cut points, that drops one of its segments. */
  lemma CrowdedDrops(len: nat, mtu: nat) returns (m: Claims, offset: nat, length: nat)
    requires mtu > 0 && !Roomy(len, mtu)
    ensures OnCuts(m, offset, length, len, mtu) && Drops(m, offset, length)
  {
    if len > 32 * mtu {
      m, offset, length := LongDrops(len, mtu);
    } else {
      m, offset, length := TailDrops(len, mtu);
    }
  }

  /** Above 32 MTUs: sixteen even cells, and the next one finds no room. */
  lemma LongDrops(len: nat, mtu: nat) returns (m: Claims, offset: nat, length: nat)
    requires mtu > 0 && len > 32 * mtu
    ensures OnCuts(m, offset, length, len, mtu) && Drops(m, offset, length)
  {
    hide EvenList, Grid;
    EvenListOnCuts(16, len, mtu);
    m, offset, length := EvenList(16, mtu), 32 * mtu, if len > 33 * mtu then mtu else len - 32 * mtu;
    MultipleMod(32, mtu);
    MultipleMod(33, mtu);
  }

  /** Between 31 and 32: fifteen even cells, the cell before the tail checkpoint, and the last cell finds no room. */
  lemma TailDrops(len: nat, mtu: nat) returns (m: Claims, offset: nat, length: nat)
    requires mtu > 0 && 31 * mtu < len < 32 * mtu
    ensures OnCuts(m, offset, length, len, mtu) && Drops(m, offset, length)
  {
    hide EvenList;
    EvenListOnCuts(15, len, mtu);
    MultipleMod(30, mtu);
    MultipleMod(31, mtu);
    m := CrowdedTail(EvenList(15, mtu), Claim(30 * mtu, len - 31 * mtu));
    offset, length := 31 * mtu, len - 31 * mtu;
  }

  /** Fifteen even cells and the piece that ends where the tail checkpoint starts. */
  ghost function CrowdedTail(l: seq<Claim>, last: Claim): (m: Claims)
    requires |l| == 15 && Separated(l) && last.length > 0 && forall i :: 0 <= i < 15 ==> l[i].End() < last.offset
    ensures |m| == 16 && m == l + [last]
  {
    l + [last]
  }

  /** The bound of NeverDropped is exact: on the cut points of a block nothing is ever dropped iff the block is roomy. */
  lemma RoomyIff(len: nat, mtu: nat)
    requires mtu > 0
    ensures Roomy(len, mtu)
            <==> forall m: Claims, offset: nat, length: nat :: OnCuts(m, offset, length, len, mtu) ==> !Drops(m, offset, length)
  {
    if Roomy(len, mtu) {
      forall m: Claims, offset: nat, length: nat | OnCuts(m, offset, length, len, mtu)
        ensures !Drops(m, offset, length)
      {
        NeverDropped(m, offset, length, len, mtu);
      }
    } else {
      var m, offset, length := CrowdedDrops(len, mtu);
    }
  }
}
