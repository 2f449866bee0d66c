/** What goes out when a block is sent: every segment of it, field by field. */
module LtpFirstSend {
  import opened Bytes
  import opened Division
  import opened LtpSegment
  import opened LtpState
  import opened LtpSegmentation
  import opened LtpSteps
  import opened TwoPartySteps
  import opened LtpRound
  import opened Sdnv

  /** The i-th of n segments of a block: its own MTU's worth of it, and on the last one the checkpoint that ends the block. */
  ghost function Nth(e: Engine, block: seq<byte>, i: nat, n: nat): Segment
    requires i < n && (n - 1) * e.config.mtu < |block| <= n * e.config.mtu
  {
    var start := i * e.config.mtu;
    MulMonotone(i, n - 1, e.config.mtu);
    MulMonotone(i + 1, n, e.config.mtu);
    var end := if i + 1 == n then |block| else start + e.config.mtu;
    Spaced(i, n, e.config.mtu, |block|);
    DataSeg(Header(0, if i + 1 == n then RED_DATA_EORP_CP else RED_DATA, e.localId, e.nextSession, 0, 0), 1, start,
            if i + 1 == n then 1 else 0, 0, block[start..end])
  }

  lemma Spaced(i: nat, n: nat, mtu: nat, len: nat)
    requires i < n && (n - 1) * mtu < len <= n * mtu
    ensures i * mtu < len && (i + 1 < n ==> i * mtu + mtu <= len)
  {
    MulMonotone(i, n - 1, mtu);
    assert (i + 1) * mtu == i * mtu + mtu;
    if i + 1 < n {
      MulMonotone(i + 1, n - 1, mtu);
    }
  }

  lemma PieceCount(len: nat, mtu: nat)
    requires mtu > 0 && len > 0
    ensures var n := |Pieces(0, len, mtu)|; n > 0 && (n - 1) * mtu < len <= n * mtu
  {
    LastPiece(0, len, mtu);
    var n := |Pieces(0, len, mtu)|;
    assert n * mtu == (n - 1) * mtu + mtu;
  }

  lemma NthPiece(len: nat, mtu: nat, i: nat)
    requires mtu > 0 && len > 0 && i < |Pieces(0, len, mtu)|
    ensures var ps := Pieces(0, len, mtu);
            && ps[i].offset == i * mtu && ps[i].End() == if i + 1 == |ps| then len else i * mtu + mtu
  {
    hide Pieces;
    LastPiece(0, len, mtu);
    PieceCount(len, mtu);
    PieceAt(0, len, mtu, i);
    assert (i + 1) * mtu == i * mtu + mtu;
    Spaced(i, |Pieces(0, len, mtu)|, mtu, len);
  }

  lemma NthSegment(e: Engine, remote: nat, block: seq<byte>, i: nat)
    requires ConfigOk(e.config) && 0 < |block| <= MAX_BLOCK_SIZE && i < |BlockSegments(e, remote, block)|
    ensures var n := |BlockSegments(e, remote, block)|;
            && (n - 1) * e.config.mtu < |block| <= n * e.config.mtu
            && BlockSegments(e, remote, block)[i] == Nth(e, block, i, n)
  {
    var x, ps := OpenedExport(e, remote, block), Pieces(0, |block|, e.config.mtu);
    PaddedIs(block);
    PieceCount(|block|, e.config.mtu);
    NthPiece(|block|, e.config.mtu, i);
    hide Pieces, Padded;
    PiecesExact(0, |block|, e.config.mtu);
    SliceOk(block, x, ps[i]);
  }

  lemma PaddedIs(block: seq<byte>)
    requires |block| <= MAX_BLOCK_SIZE
    ensures Padded(block)[..|block|] == block
  {
  }

  /** With identifiers below 2^63 and an MTU of at most 400, every segment fits the 512-octet buffer. */
  lemma NthFits(e: Engine, remote: nat, block: seq<byte>, i: nat)
    requires ConfigOk(e.config) && 0 < |block| <= MAX_BLOCK_SIZE && i < |BlockSegments(e, remote, block)|
    requires e.config.mtu <= ROUND_MTU && e.localId < INT64_LIMIT && e.nextSession < INT64_LIMIT
    ensures Fits(BlockSegments(e, remote, block)[i], SEGMENT_BUF)
  {
    var x, ps := OpenedExport(e, remote, block), Pieces(0, |block|, e.config.mtu);
    PaddedIs(block);
    PiecesExact(0, |block|, e.config.mtu);
    hide Pieces, Padded, Fits, Decodable, DataSegment;
    DataFits(x, block, RED_DATA, ps[i], 0);
    DataFits(x, block, RED_DATA_EORP_CP, ps[i], 1);
  }

  lemma {:induction false} AllGoOut(ss: seq<Segment>)
    requires AllFitting(ss)
    ensures EmitUntilStuck(ss) == ss
  {
    hide Fits;
    if ss != [] {
      AllGoOut(ss[1..]);
    }
  }

  /**
   * A block opens a session iff it is not empty, is within the configured limit, and some slot is free: then the
   * first free slot holds it under the next number. Otherwise nothing changes and nothing is sent.
   */
  lemma OpensIff(e: Engine, remote: nat, block: seq<byte>, now: int)
    requires ConfigOk(e.config)
    ensures var f := SendBlock(e, remote, block, now);
            if 0 < |block| <= e.config.maxBlockSize && exists k :: 0 <= k < |e.exports| && !e.exports[k].active
            then
              && f.engine.nextSession == e.nextSession + 1 && |f.engine.exports| == |e.exports|
              && exists k :: 0 <= k < |e.exports| && !e.exports[k].active && (forall i :: 0 <= i < k ==> e.exports[i].active)
                   && f.engine.exports[k].active && f.engine.exports[k].session == e.nextSession && f.engine.exports[k].remote == remote
                   && f.engine.exports[k].Block() == block && f.engine.exports == e.exports[k := f.engine.exports[k]]
            else f == Effect(e, [], [])
  {
    hide BlockSegments, EmitUntilStuck, ArmCheckpoint;
    if |block| <= MAX_BLOCK_SIZE {
      PaddedIs(block);
    }
    hide Padded;
    var k := FreeExport(e.exports);
    if CanSend(e, block) {
      assert AfterOpen(e, remote, block).exports[k].active;
    }
  }

  lemma SentIs(e: Engine, remote: nat, block: seq<byte>, now: int)
    requires ConfigOk(e.config) && CanSend(e, block)
    ensures 0 < |block| <= MAX_BLOCK_SIZE && |BlockSegments(e, remote, block)| > 0
    ensures SendBlock(e, remote, block, now).sent == EmitUntilStuck(BlockSegments(e, remote, block))
  {
    PieceCount(|block|, e.config.mtu);
    hide Pieces, EmitUntilStuck, ArmNewest, AfterOpen;
  }

  /**
   * A block is sent as its length over the MTU, rounded up, segments: each but the last a whole MTU of it, in order
   * and without gaps, and the last one marked as its end, with checkpoint serial 1.
   */
  lemma BlockGoesOut(e: Engine, remote: nat, block: seq<byte>, now: int)
    requires ConfigOk(e.config) && CanSend(e, block)
    requires e.config.mtu <= ROUND_MTU && e.localId < INT64_LIMIT && e.nextSession < INT64_LIMIT
    ensures var sent := SendBlock(e, remote, block, now).sent;
            && |sent| > 0 && (|sent| - 1) * e.config.mtu < |block| <= |sent| * e.config.mtu
            && forall i :: 0 <= i < |sent| ==> sent[i] == Nth(e, block, i, |sent|)
  {
    var ss := BlockSegments(e, remote, block);
    SentIs(e, remote, block, now);
    hide *;
    forall i | 0 <= i < |ss|
      ensures (|ss| - 1) * e.config.mtu < |block| <= |ss| * e.config.mtu && Fits(ss[i], SEGMENT_BUF)
      ensures ss[i] == Nth(e, block, i, |ss|)
    {
      NthSegment(e, remote, block, i);
      NthFits(e, remote, block, i);
    }
    assert (|ss| - 1) * e.config.mtu < |block| <= |ss| * e.config.mtu by { NthSegment(e, remote, block, 0); }
    AllGoOut(ss);
  }

  /** With larger numbers or a larger MTU the first segment that does not fit ends the transmission, and what went before is out. */
  lemma {:induction false} FirstMisfitStops(ss: seq<Segment>)
    ensures var out := EmitUntilStuck(ss);
            && out == ss[..|out|] && (forall i :: 0 <= i < |out| ==> Fits(out[i], SEGMENT_BUF))
            && (|out| < |ss| ==> !Fits(ss[|out|], SEGMENT_BUF))
  {
    hide Fits;
    if ss != [] && Fits(ss[0], SEGMENT_BUF) {
      FirstMisfitStops(ss[1..]);
      var out := EmitUntilStuck(ss);
      assert out == [ss[0]] + EmitUntilStuck(ss[1..]);
      assert forall i :: 1 <= i < |ss| ==> ss[i] == ss[1..][i - 1];
    }
  }
}
