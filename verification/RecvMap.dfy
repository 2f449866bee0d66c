/**
 * The receive map as the engine stores it: a fixed array of sixteen slots and a count, merged and shifted
 * in place (ltp_recv_map_add_claim in ltp.c).
 */
module RecvMap {
  import opened ClaimMap

  class RecvMap {
    var count: nat
    const claims: array<Claim>

    ghost predicate Valid()
      reads this, claims
    {
      claims.Length == MAX_CLAIMS && count <= MAX_CLAIMS && Separated(claims[..count])
    }

    ghost function Contents(): Claims
      reads this, claims
      requires Valid()
    {
      claims[..count]
    }

    /** A map holding the given claims. */
    constructor (m: Claims)
      ensures Valid() && Contents() == m && fresh(claims)
    {
      claims := new Claim[MAX_CLAIMS](i => if 0 <= i < |m| then m[i] else Claim(0, 0));
      count := |m|;
    }

    /** Reads the claims back out. */
    method Snapshot() returns (m: Claims)
      requires Valid()
      ensures m == Contents()
    {
      m := claims[..count];
    }

    method RemoveAt(i: nat)
      requires claims.Length == MAX_CLAIMS && i < count <= MAX_CLAIMS
      modifies this`count, claims
      ensures count == old(count) - 1
      ensures claims[..count] == old(claims[..i]) + old(claims[i + 1..count])
    {
      var j := i;
      while j + 1 < count
        invariant count == old(count)
        invariant i <= j < count
        invariant forall k :: 0 <= k < i || j <= k < MAX_CLAIMS ==> claims[k] == old(claims[k])
        invariant forall k :: i <= k < j ==> claims[k] == old(claims[k + 1])
      {
        claims[j] := claims[j + 1];
        j := j + 1;
      }
      count := count - 1;
    }

    method InsertAt(ins: nat, c: Claim)
      requires claims.Length == MAX_CLAIMS && ins <= count < MAX_CLAIMS
      modifies this`count, claims
      ensures count == old(count) + 1
      ensures claims[..count] == old(claims[..ins]) + [c] + old(claims[ins..count])
    {
      var j := count;
      while j > ins
        invariant count == old(count)
        invariant ins <= j <= count
        invariant forall k :: 0 <= k < j ==> claims[k] == old(claims[k])
        invariant forall k :: j < k <= count ==> claims[k] == old(claims[k - 1])
      {
        claims[j] := claims[j - 1];
        j := j - 1;
      }
      claims[ins] := c;
      count := count + 1;
    }

    /** Takes every claim that the range touches, or comes to touch, out of the map and returns the widened range. */
    method MergePass(offset: nat, length: nat) returns (newStart: nat, newEnd: nat)
      requires claims.Length == MAX_CLAIMS && count <= MAX_CLAIMS
      modifies this`count, claims
      ensures count <= MAX_CLAIMS
      ensures Merged(claims[..count], newStart, newEnd) == MergeFrom(old(claims[..count]), 0, offset, offset + length)
    {
      newStart, newEnd := offset, offset + length;
      var i := 0;
      while i < count
        invariant i <= count <= MAX_CLAIMS
        invariant MergeFrom(claims[..count], i, newStart, newEnd)
               == MergeFrom(old(claims[..count]), 0, offset, offset + length)
        decreases count - i
      {
        var c := claims[i];
        ghost var cur := claims[..count];
        assert c == cur[i];
        if newStart <= c.End() && newEnd >= c.offset {
          if c.offset < newStart {
            newStart := c.offset;
          }
          if c.End() > newEnd {
            newEnd := c.End();
          }
          assert claims[..i] == cur[..i] && claims[i + 1..count] == cur[i + 1..];
          RemoveAt(i);
        } else {
          i := i + 1;
        }
      }
    }

    /** Where a range that touches no claim belongs. */
    method InsertionPoint(newStart: nat) returns (ins: nat)
      requires claims.Length == MAX_CLAIMS && count <= MAX_CLAIMS
      ensures ins <= count
      ensures ins < count ==> newStart < claims[ins].offset
      ensures forall k :: 0 <= k < ins ==> claims[k].offset <= newStart
    {
      ins := count;
      for k := 0 to count
        invariant ins == count
        invariant forall i :: 0 <= i < k ==> claims[i].offset <= newStart
      {
        if newStart < claims[k].offset {
          return k;
        }
      }
    }

    /** The byte range and every claim it touches become one claim, if there is room for it. */
    method AddClaim(offset: nat, length: nat)
      requires Valid()
      modifies this`count, claims
      ensures Valid()
      ensures Contents() == ClaimMap.AddClaim(old(Contents()), offset, length)
    {
      if length == 0 {
        return;
      }
      ghost var m := Contents();
      var newStart, newEnd := MergePass(offset, length);
      ghost var kept := claims[..count];
      MergeOutcome(m, offset, length, kept, newStart, newEnd);
      if count >= MAX_CLAIMS {
        return;
      }
      var ins := InsertionPoint(newStart);
      assert forall k :: 0 <= k < count ==> kept[k] == claims[k];
      InsertOutcome(m, offset, length, kept, newStart, newEnd, ins);
      assert claims[..ins] == kept[..ins] && claims[ins..count] == kept[ins..];
      InsertAt(ins, Claim(newStart, newEnd - newStart));
    }
  }

  datatype Merged = Merged(kept: seq<Claim>, start: nat, end: nat)

  /** The merging pass from position i on, as a function of the claims and the range grown so far. */
  ghost function MergeFrom(cur: seq<Claim>, i: nat, s: nat, e: nat): Merged
    decreases |cur| - i
  {
    if i >= |cur| then Merged(cur, s, e)
    else if Touches(cur[i], s, e) then
      MergeFrom(cur[..i] + cur[i + 1..], i,
                if cur[i].offset < s then cur[i].offset else s, if cur[i].End() > e then cur[i].End() else e)
    else MergeFrom(cur, i + 1, s, e)
  }

  /** What holds after each step: the claims passed over stay clear of the range grown so far, and no byte is lost. */
  ghost predicate Passing(cur: seq<Claim>, i: nat, s: nat, e: nat) {
    && Separated(cur) && i <= |cur| && s < e
    && forall k :: 0 <= k < i ==> !Touches(cur[k], s, e)
  }

  ghost predicate Claimed(cur: seq<Claim>, s: nat, e: nat, x: nat) {
    Covers(cur, x) || s <= x < e
  }

  lemma RemoveStep(cur: seq<Claim>, i: nat, s: nat, e: nat)
    requires Passing(cur, i, s, e) && i < |cur| && Touches(cur[i], s, e)
    ensures Passing(cur[..i] + cur[i + 1..], i,
                    if cur[i].offset < s then cur[i].offset else s, if cur[i].End() > e then cur[i].End() else e)
  {
    var next := cur[..i] + cur[i + 1..];
    forall k, l | 0 <= k < l < |next| ensures next[k].End() < next[l].offset {
      assert cur[if k < i then k else k + 1].End() < cur[if l < i then l else l + 1].offset;
    }
    assert forall k :: 0 <= k < i ==> next[k] == cur[k] && cur[k].End() < cur[i].offset;
  }

  lemma RemoveClaimed(cur: seq<Claim>, i: nat, s: nat, e: nat, x: nat)
    requires i < |cur| && Touches(cur[i], s, e) && s < e
    ensures Claimed(cur[..i] + cur[i + 1..],
                    if cur[i].offset < s then cur[i].offset else s, if cur[i].End() > e then cur[i].End() else e, x)
            <==> Claimed(cur, s, e, x)
  {
    var next := cur[..i] + cur[i + 1..];
    SplitCovers(next, i, x);
    assert next[..i] == cur[..i] && next[i..] == cur[i + 1..];
    SplitCovers(cur, i, x);
    SplitCovers(cur[i..], 1, x);
    assert cur[i..][..1] == [cur[i]] && cur[i..][1..] == cur[i + 1..];
    assert Covers([cur[i]], x) <==> cur[i].offset <= x < cur[i].End() by {
      assert [cur[i]][0] == cur[i];
    }
  }

  /** One pass is enough because the claims are separated: widening by one claim never reaches another. */
  lemma {:induction false} MergePassing(cur: seq<Claim>, i: nat, s: nat, e: nat)
    requires Passing(cur, i, s, e)
    ensures var f := MergeFrom(cur, i, s, e);
            && Passing(f.kept, |f.kept|, f.start, f.end) && |f.kept| <= |cur|
            && (|f.kept| == |cur| ==> f == Merged(cur, s, e))
    decreases |cur| - i
  {
    if i < |cur| {
      if Touches(cur[i], s, e) {
        RemoveStep(cur, i, s, e);
        MergePassing(cur[..i] + cur[i + 1..], i,
                     if cur[i].offset < s then cur[i].offset else s, if cur[i].End() > e then cur[i].End() else e);
      } else {
        MergePassing(cur, i + 1, s, e);
      }
    }
  }

  lemma {:induction false} MergeClaimed(cur: seq<Claim>, i: nat, s: nat, e: nat, x: nat)
    requires s < e
    ensures var f := MergeFrom(cur, i, s, e); Claimed(f.kept, f.start, f.end, x) <==> Claimed(cur, s, e, x)
    decreases |cur| - i
  {
    if i < |cur| {
      if Touches(cur[i], s, e) {
        RemoveClaimed(cur, i, s, e, x);
        MergeClaimed(cur[..i] + cur[i + 1..], i,
                     if cur[i].offset < s then cur[i].offset else s, if cur[i].End() > e then cur[i].End() else e, x);
      } else {
        MergeClaimed(cur, i + 1, s, e, x);
      }
    }
  }

  /** The pass leaves a full map only when it removed nothing. */
  lemma MergeOutcome(m: Claims, offset: nat, length: nat, kept: seq<Claim>, s: nat, e: nat)
    requires length > 0 && Merged(kept, s, e) == MergeFrom(m, 0, offset, offset + length)
    ensures Passing(kept, |kept|, s, e) && |kept| <= MAX_CLAIMS
    ensures |kept| == MAX_CLAIMS ==> kept == m && AddClaim(m, offset, length) == m
  {
    MergePassing(m, 0, offset, offset + length);
  }

  /** With room left, the widened range in its place makes the map that claims the union. */
  lemma InsertOutcome(m: Claims, offset: nat, length: nat, kept: seq<Claim>, s: nat, e: nat, ins: nat)
    requires length > 0 && Merged(kept, s, e) == MergeFrom(m, 0, offset, offset + length)
    requires Passing(kept, |kept|, s, e) && |kept| < MAX_CLAIMS && ins <= |kept|
    requires ins < |kept| ==> s < kept[ins].offset
    requires forall k :: 0 <= k < ins ==> kept[k].offset <= s
    ensures kept[..ins] + [Claim(s, e - s)] + kept[ins..] == AddClaim(m, offset, length)
  {
    var r := Splice(kept, ins, ins, Claim(s, e - s));
    var target := AddClaim(m, offset, length);
    InsertSeparated(kept, ins, s, e);
    NotFull(m, offset, length, kept);
    forall x: nat ensures Covers(r, x) <==> Covers(target, x) {
      InsertCovers(m, offset, length, kept, s, e, ins, x);
    }
    Canonical(r, target);
  }

  lemma InsertCovers(m: Claims, offset: nat, length: nat, kept: seq<Claim>, s: nat, e: nat, ins: nat, x: nat)
    requires length > 0 && Merged(kept, s, e) == MergeFrom(m, 0, offset, offset + length)
    requires s < e && ins <= |kept| && !Drops(m, offset, length)
    ensures Covers(Splice(kept, ins, ins, Claim(s, e - s)), x) <==> Covers(AddClaim(m, offset, length), x)
  {
    SpliceCovers(kept, ins, ins, Claim(s, e - s), x);
    SplitCovers(kept, ins, x);
    MergeClaimed(m, 0, offset, offset + length, x);
    AddClaimCovers(m, offset, length, x);
  }

  lemma InsertSeparated(kept: seq<Claim>, ins: nat, s: nat, e: nat)
    requires Passing(kept, |kept|, s, e) && ins <= |kept|
    requires ins < |kept| ==> s < kept[ins].offset
    requires forall k :: 0 <= k < ins ==> kept[k].offset <= s
    ensures Separated(Splice(kept, ins, ins, Claim(s, e - s)))
  {
    forall k | ins <= k < |kept| ensures e < kept[k].offset {
      assert k > ins ==> kept[ins].End() < kept[k].offset;
    }
    SpliceSeparated(kept, ins, ins, Claim(s, e - s));
  }

  lemma NotFull(m: Claims, offset: nat, length: nat, kept: seq<Claim>)
    requires length > 0 && kept == MergeFrom(m, 0, offset, offset + length).kept && |kept| < MAX_CLAIMS
    ensures !Drops(m, offset, length)
  {
    if Drops(m, offset, length) {
      NothingTouched(m, 0, offset, offset + length);
      assert false;
    }
  }

  lemma {:induction false} NothingTouched(m: seq<Claim>, i: nat, s: nat, e: nat)
    requires forall k :: 0 <= k < |m| ==> !Touches(m[k], s, e)
    ensures MergeFrom(m, i, s, e) == Merged(m, s, e)
    decreases |m| - i
  {
    if i < |m| {
      NothingTouched(m, i + 1, s, e);
    }
  }
}
