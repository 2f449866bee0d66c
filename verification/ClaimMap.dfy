/**
 * The receive map of an import session (ltp.c): at most sixteen byte ranges, kept sorted, disjoint and
 * non-adjacent. Offsets and lengths are below 2^63 on the wire, so their sums do not wrap.
 */
module ClaimMap {
  const MAX_CLAIMS := 16

  datatype Claim = Claim(offset: nat, length: nat) {
    function End(): nat { offset + length }
  }

  /** Sorted, nonempty, and with at least one byte missing between any two claims. */
  predicate Separated(m: seq<Claim>) {
    && (forall i :: 0 <= i < |m| ==> m[i].length > 0)
    && (forall i, j :: 0 <= i < j < |m| ==> m[i].End() < m[j].offset)
  }

  type Claims = m: seq<Claim> | Separated(m) && |m| <= MAX_CLAIMS

  predicate Covers(m: seq<Claim>, x: nat) {
    exists i :: 0 <= i < |m| && m[i].offset <= x < m[i].End()
  }

  /** Overlap or adjacency with the half-open range [s, e). */
  predicate Touches(c: Claim, s: nat, e: nat) {
    s <= c.End() && c.offset <= e
  }

  // ---- What adding a range means ----

  /** Number of leading claims that end before s. */
  function Before(m: seq<Claim>, s: nat): (k: nat)
    ensures k <= |m|
    ensures forall i :: 0 <= i < k ==> m[i].End() < s
    ensures k < |m| ==> s <= m[k].End()
  {
    if m != [] && m[0].End() < s then 1 + Before(m[1..], s) else 0
  }

  /** Number of leading claims that start at or before e. */
  function UpTo(m: seq<Claim>, e: nat): (k: nat)
    ensures k <= |m|
    ensures forall i :: 0 <= i < k ==> m[i].offset <= e
    ensures k < |m| ==> e < m[k].offset
  {
    if m != [] && m[0].offset <= e then 1 + UpTo(m[1..], e) else 0
  }

  /** The range r together with a run of claims around it, as one claim. */
  function Hull(m: seq<Claim>, r: Claim): Claim {
    if m == [] then r
    else
      var s := if m[0].offset < r.offset then m[0].offset else r.offset;
      var e := if m[|m| - 1].End() > r.End() then m[|m| - 1].End() else r.End();
      Claim(s, if s <= e then e - s else 0)
  }

  /** A full map that the new range does not touch has no room for it. */
  predicate Drops(m: seq<Claim>, offset: nat, length: nat) {
    && length > 0 && |m| >= MAX_CLAIMS
    && forall i :: 0 <= i < |m| ==> !Touches(m[i], offset, offset + length)
  }

  function Splice(m: seq<Claim>, lo: nat, hi: nat, h: Claim): seq<Claim>
    requires lo <= hi <= |m|
  {
    m[..lo] + [h] + m[hi..]
  }

  /** The map after adding [offset, offset + length): the claims left of it, their hull with it, the claims right of it. */
  function AddClaim(m: Claims, offset: nat, length: nat): (r: Claims) {
    if length == 0 || Drops(m, offset, length) then m
    else
      var lo, hi := Before(m, offset), UpTo(m, offset + length);
      TouchedRun(m, offset, length);
      var h := Hull(m[lo..hi], Claim(offset, length));
      SpliceSeparated(m, lo, hi, h);
      Splice(m, lo, hi, h)
  }

  /** The claims that a range touches are a contiguous run, and their hull stays clear of the others. */
  lemma TouchedRun(m: seq<Claim>, offset: nat, length: nat)
    requires Separated(m) && length > 0
    ensures var lo, hi := Before(m, offset), UpTo(m, offset + length);
            && lo <= hi
            && (lo == hi && |m| >= MAX_CLAIMS ==> Drops(m, offset, length))
            && var h := Hull(m[lo..hi], Claim(offset, length));
               && h.offset <= offset && offset + length <= h.End()
               && (forall i :: 0 <= i < lo ==> m[i].End() < h.offset)
               && (forall i :: hi <= i < |m| ==> h.End() < m[i].offset)
  {
    var lo, hi := Before(m, offset), UpTo(m, offset + length);
    RunOrder(m, lo, hi, offset, offset + length);
    HullClear(m, lo, hi, Claim(offset, length));
    if lo == hi {
      assert forall i :: 0 <= i < |m| ==> !Touches(m[i], offset, offset + length);
    }
  }

  lemma RunOrder(m: seq<Claim>, lo: nat, hi: nat, s: nat, e: nat)
    requires Separated(m) && s <= e && lo <= |m| && hi <= |m|
    requires lo < |m| ==> s <= m[lo].End()
    requires hi < |m| ==> e < m[hi].offset
    requires hi < lo ==> m[hi].End() < s
    ensures lo <= hi
    ensures forall i :: lo <= i < |m| ==> s <= m[i].End()
    ensures forall i :: hi <= i < |m| ==> e < m[i].offset
  {
    assert forall i :: lo < i < |m| ==> m[lo].End() < m[i].offset;
    assert forall i :: hi < i < |m| ==> m[hi].End() < m[i].offset;
  }

  lemma HullClear(m: seq<Claim>, lo: nat, hi: nat, r: Claim)
    requires Separated(m) && lo <= hi <= |m|
    requires forall i :: 0 <= i < lo ==> m[i].End() < r.offset
    requires forall i :: hi <= i < |m| ==> r.End() < m[i].offset
    ensures var h := Hull(m[lo..hi], r);
            && h.offset <= r.offset && r.End() <= h.End()
            && (forall i :: 0 <= i < lo ==> m[i].End() < h.offset)
            && (forall i :: hi <= i < |m| ==> h.End() < m[i].offset)
  {
    if lo < hi {
      assert m[lo..hi][0] == m[lo] && m[lo..hi][hi - lo - 1] == m[hi - 1];
      assert forall i :: 0 <= i < lo ==> m[i].End() < m[lo].offset;
      assert forall i :: hi <= i < |m| ==> m[hi - 1].End() < m[i].offset;
    }
  }

  lemma SpliceSeparated(m: seq<Claim>, lo: nat, hi: nat, h: Claim)
    requires Separated(m) && lo <= hi <= |m| && h.length > 0
    requires forall i :: 0 <= i < lo ==> m[i].End() < h.offset
    requires forall i :: hi <= i < |m| ==> h.End() < m[i].offset
    ensures Separated(Splice(m, lo, hi, h))
  {
    var r := Splice(m, lo, hi, h);
    forall i, j | 0 <= i < j < |r| ensures r[i].End() < r[j].offset {
      var i' := if i < lo then i else i - lo - 1 + hi;
      var j' := if j < lo then j else j - lo - 1 + hi;
      if i == lo {
        assert r[j] == m[j'];
      } else if j == lo {
        assert r[i] == m[i'];
      } else {
        assert r[i] == m[i'] && r[j] == m[j'] && i' < j';
      }
    }
  }

  lemma SpliceCovers(m: seq<Claim>, lo: nat, hi: nat, h: Claim, x: nat)
    requires lo <= hi <= |m|
    ensures Covers(Splice(m, lo, hi, h), x)
            <==> Covers(m[..lo], x) || h.offset <= x < h.End() || Covers(m[hi..], x)
  {
    var r := Splice(m, lo, hi, h);
    if Covers(r, x) {
      var i :| 0 <= i < |r| && r[i].offset <= x < r[i].End();
      if i < lo { assert m[..lo][i] == r[i]; }
      else if i > lo { assert m[hi..][i - lo - 1] == r[i]; }
    }
    if Covers(m[..lo], x) {
      var i :| 0 <= i < lo && m[..lo][i].offset <= x < m[..lo][i].End();
      assert r[i] == m[..lo][i];
    }
    if Covers(m[hi..], x) {
      var i :| 0 <= i < |m| - hi && m[hi..][i].offset <= x < m[hi..][i].End();
      assert r[lo + 1 + i] == m[hi..][i];
    }
    assert r[lo] == h;
  }

  lemma SplitCovers(m: seq<Claim>, k: nat, x: nat)
    requires k <= |m|
    ensures Covers(m, x) <==> Covers(m[..k], x) || Covers(m[k..], x)
  {
    if Covers(m, x) {
      var i :| 0 <= i < |m| && m[i].offset <= x < m[i].End();
      if i < k { assert m[..k][i] == m[i]; } else { assert m[k..][i - k] == m[i]; }
    }
    if Covers(m[k..], x) {
      var i :| 0 <= i < |m| - k && m[k..][i].offset <= x < m[k..][i].End();
      assert m[k + i] == m[k..][i];
    }
  }

  /** The hull of the touched run claims the run and the range, and nothing else. */
  lemma HullCovers(m: seq<Claim>, r: Claim, x: nat)
    requires Separated(m) && r.length > 0
    requires forall i :: 0 <= i < |m| ==> Touches(m[i], r.offset, r.End())
    ensures var h := Hull(m, r); h.offset <= x < h.End() <==> Covers(m, x) || r.offset <= x < r.End()
  {
    if m != [] {
      var last := |m| - 1;
      assert Touches(m[0], r.offset, r.End()) && Touches(m[last], r.offset, r.End());
      assert last > 0 ==> m[0].End() < m[last].offset;
      if Covers(m, x) {
        var i :| 0 <= i < |m| && m[i].offset <= x < m[i].End();
        assert i > 0 ==> m[0].End() < m[i].offset;
        assert i < last ==> m[i].End() < m[last].offset;
      }
    }
  }

  /**
   * Adding a range claims exactly the old bytes and the new ones, except that a full map the range
   * does not touch stays as it was. No byte is ever forgotten.
   */
  lemma AddClaimCovers(m: Claims, offset: nat, length: nat, x: nat)
    ensures Covers(AddClaim(m, offset, length), x)
            <==> Covers(m, x) || (offset <= x < offset + length && !Drops(m, offset, length))
  {
    if length > 0 && !Drops(m, offset, length) {
      var lo, hi := Before(m, offset), UpTo(m, offset + length);
      TouchedRun(m, offset, length);
      TouchedOnly(m, offset, length);
      SpliceCovers(m, lo, hi, Hull(m[lo..hi], Claim(offset, length)), x);
      HullCovers(m[lo..hi], Claim(offset, length), x);
      ThreeParts(m, lo, hi, x);
    }
  }

  lemma ThreeParts(m: seq<Claim>, lo: nat, hi: nat, x: nat)
    requires lo <= hi <= |m|
    ensures Covers(m, x) <==> Covers(m[..lo], x) || Covers(m[lo..hi], x) || Covers(m[hi..], x)
  {
    SplitCovers(m, hi, x);
    SplitCovers(m[..hi], lo, x);
    assert m[..hi][..lo] == m[..lo] && m[..hi][lo..] == m[lo..hi];
  }

  lemma TouchedOnly(m: seq<Claim>, offset: nat, length: nat)
    requires Separated(m) && length > 0
    requires Before(m, offset) <= UpTo(m, offset + length)
    ensures var mid := m[Before(m, offset)..UpTo(m, offset + length)];
            Separated(mid) && forall i :: 0 <= i < |mid| ==> Touches(mid[i], offset, offset + length)
  {
    var lo, hi := Before(m, offset), UpTo(m, offset + length);
    var mid := m[lo..hi];
    forall i | 0 <= i < |mid| ensures Touches(mid[i], offset, offset + length) {
      assert mid[i] == m[lo + i];
      assert i > 0 ==> m[lo].End() < m[lo + i].offset;
    }
  }

  // ---- The map is a canonical form of the byte set ----

  /** Two maps that claim the same bytes are the same map. */
  lemma {:induction false} Canonical(m: seq<Claim>, n: seq<Claim>)
    requires Separated(m) && Separated(n)
    requires forall x: nat :: Covers(m, x) <==> Covers(n, x)
    ensures m == n
    decreases |m|
  {
    if m == [] {
      if n != [] { assert Covers(n, n[0].offset); }
    } else {
      assert Covers(m, m[0].offset);
      FirstClaimEqual(m, n);
      forall x: nat ensures Covers(m[1..], x) <==> Covers(n[1..], x) {
        TailCovers(m, x);
        TailCovers(n, x);
      }
      Canonical(m[1..], n[1..]);
      assert m == [m[0]] + m[1..] && n == [n[0]] + n[1..];
    }
  }

  lemma FirstClaimEqual(m: seq<Claim>, n: seq<Claim>)
    requires Separated(m) && Separated(n) && m != [] && n != []
    requires forall x: nat :: Covers(m, x) <==> Covers(n, x)
    ensures m[0] == n[0]
  {
    assert Covers(m, m[0].offset) && Covers(n, n[0].offset);
    assert !Covers(m, m[0].End()) && !Covers(n, n[0].End());
    assert Covers(m, m[0].End() - 1) && Covers(n, n[0].End() - 1);
    if m[0].End() < n[0].End() {
      assert false;
    } else if n[0].End() < m[0].End() {
      assert false;
    }
  }

  lemma TailCovers(m: seq<Claim>, x: nat)
    requires Separated(m) && m != []
    ensures Covers(m[1..], x) <==> Covers(m, x) && m[0].End() <= x
  {
    if Covers(m[1..], x) {
      var i :| 0 <= i < |m[1..]| && m[1..][i].offset <= x < m[1..][i].End();
      assert m[i + 1].offset <= x < m[i + 1].End();
    }
    if Covers(m, x) && m[0].End() <= x {
      var i :| 0 <= i < |m| && m[i].offset <= x < m[i].End();
      assert m[1..][i - 1].offset <= x < m[1..][i - 1].End();
    }
  }

  /** The reception test of the engine, one claim from 0 reaching n, is full coverage of [0, n). */
  lemma FullIffCovers(m: Claims, n: nat)
    requires n > 0 && forall x: nat :: Covers(m, x) ==> x < n
    ensures (|m| == 1 && m[0].offset == 0 && m[0].length >= n) <==> (forall x: nat :: x < n ==> Covers(m, x))
  {
    if forall x: nat :: x < n ==> Covers(m, x) {
      assert Covers(m, 0) && Covers(m, n - 1);
      assert |m| > 1 ==> !Covers(m, m[0].End()) && Covers(m, m[1].offset);
      assert |m| == 1 ==> !Covers(m, m[0].End());
    }
  }
}
