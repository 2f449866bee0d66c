/** Reassembly fed with any bundles at all: fragments of other payloads, fragments that do not fit, whole bundles. */
module AnyFragments {
  import opened Bytes
  import opened Bundle
  import opened Reassembly

  /** The context after a sequence of bundles. */
  function AddEach(c: Context, fs: seq<Bundle>): (r: Context)
    requires Sound(c)
    ensures Sound(r)
    decreases |fs|
  {
    if fs == [] then c
    else
      var d := AddEach(c, fs[..|fs| - 1]);
      AddSound(d, fs[|fs| - 1]);
      AddFragment(d, fs[|fs| - 1]).ctx
  }

  /** The header of the first fragment among them. */
  function FirstHeader(fs: seq<Bundle>): Option<Primary> {
    if fs == [] then None
    else if IsFragment(fs[0].primary.flags) then Some(fs[0].primary)
    else FirstHeader(fs[1..])
  }

  /** A fragment of the payload that h is about, with its octets where that payload has room for them. */
  predicate Belongs(h: Primary, f: Bundle) {
    var p := f.primary;
    && IsFragment(p.flags) && p.src == h.src && p.time == h.time && p.sequence == h.sequence && p.totalAdu == h.totalAdu
    && p.fragmentOffset + |f.payload| <= h.totalAdu && p.fragmentOffset + |f.payload| <= MAX_PAYLOAD
  }

  predicate Reaches(f: Bundle, i: nat) {
    f.primary.fragmentOffset <= i < f.primary.fragmentOffset + |f.payload|
  }

  /** The octet at i according to the last fragment that belongs and reaches it. */
  function Latest(h: Primary, fs: seq<Bundle>, i: nat): Option<byte>
    decreases |fs|
  {
    if fs == [] then None
    else
      var f := fs[|fs| - 1];
      if Belongs(h, f) && Reaches(f, i) then Some(f.payload[i - f.primary.fragmentOffset])
      else Latest(h, fs[..|fs| - 1], i)
  }

  /** The context is about h and holds, octet by octet, what the fragments of h brought last. */
  ghost predicate Assembles(c: Context, h: Primary, fs: seq<Bundle>)
    requires Sound(c)
  {
    && c.active && Matches(c, h) && c.lifetime == h.lifetime
    && forall i :: 0 <= i < MAX_PAYLOAD ==>
         && (c.received[i] <==> Latest(h, fs, i).Some?)
         && (c.received[i] ==> c.data[i] == Latest(h, fs, i).value)
  }

  lemma {:induction false} FirstOfMore(fs: seq<Bundle>, f: Bundle)
    ensures FirstHeader(fs + [f]) == if FirstHeader(fs).Some? then FirstHeader(fs) else FirstHeader([f])
    decreases |fs|
  {
    if fs == [] {
      assert [] + [f] == [f];
    } else {
      assert (fs + [f])[1..] == fs[1..] + [f];
      FirstOfMore(fs[1..], f);
    }
  }

  lemma FirstOfOne(f: Bundle)
    ensures FirstHeader([f]) == if IsFragment(f.primary.flags) then Some(f.primary) else None
  {
  }

  lemma {:induction false} NoneBelongs(fs: seq<Bundle>, h: Primary, i: nat)
    requires FirstHeader(fs) == None
    ensures Latest(h, fs, i) == None
    decreases |fs|
  {
    if fs != [] {
      var n := |fs| - 1;
      assert fs == fs[..n] + [fs[n]];
      FirstOfMore(fs[..n], fs[n]);
      NoneBelongs(fs[..n], h, i);
    }
  }

  /** One more bundle: stored when it belongs, refused and without effect on the octets when it does not. */
  lemma AddOne(c: Context, h: Primary, fs: seq<Bundle>, f: Bundle)
    requires Sound(c) && Assembles(c, h, fs)
    ensures var a := AddFragment(c, f);
            && Sound(a.ctx) && Assembles(a.ctx, h, fs + [f])
            && a.status == if Belongs(h, f) then Status(a.ctx) else -1
  {
    hide Overwrite, Status;
    AddSound(c, f);
    var gs := fs + [f];
    assert gs[..|gs| - 1] == fs;
    if Belongs(h, f) {
      StoreAt(c, f.primary.fragmentOffset, f.payload);
    }
  }

  /** The first fragment makes an idle context its own, whether or not it is refused. */
  lemma Starts(c: Context, fs: seq<Bundle>, f: Bundle)
    requires Sound(c) && !c.active && FirstHeader(fs) == None && IsFragment(f.primary.flags)
    ensures AddFragment(c, f) == AddFragment(Activated(c, f.primary), f)
    ensures Sound(Activated(c, f.primary)) && Assembles(Activated(c, f.primary), f.primary, fs)
  {
    forall i | 0 <= i < MAX_PAYLOAD ensures Latest(f.primary, fs, i) == None {
      NoneBelongs(fs, f.primary, i);
    }
  }

  /**
   * Whatever is fed to an idle context: it stays idle until the first fragment, and from then on it holds what
   * the fragments of that payload brought, and nothing of any other.
   */
  lemma {:induction false} NeverMixed(c: Context, fs: seq<Bundle>)
    requires Sound(c) && !c.active
    ensures match FirstHeader(fs)
            case None => AddEach(c, fs) == c
            case Some(h) => Assembles(AddEach(c, fs), h, fs)
    decreases |fs|
  {
    hide AddFragment, Assembles;
    if fs != [] {
      var n := |fs| - 1;
      var d, f := AddEach(c, fs[..n]), fs[n];
      assert fs == fs[..n] + [f];
      NeverMixed(c, fs[..n]);
      FirstOfMore(fs[..n], f);
      match FirstHeader(fs[..n])
      case Some(h) => AddOne(d, h, fs[..n], f);
      case None =>
        if IsFragment(f.primary.flags) {
          Starts(c, fs[..n], f);
          AddOne(Activated(c, f.primary), f.primary, fs[..n], f);
        } else {
          WholeRefused(c, f);
        }
    }
  }

  lemma WholeRefused(c: Context, f: Bundle)
    requires Sound(c) && !IsFragment(f.primary.flags)
    ensures AddFragment(c, f) == Added(c, -1)
  {
  }

  lemma {:induction false} LatestInside(h: Primary, fs: seq<Bundle>, i: nat)
    requires Latest(h, fs, i).Some?
    ensures i < h.totalAdu && i < MAX_PAYLOAD
    decreases |fs|
  {
    var f := fs[|fs| - 1];
    if !(Belongs(h, f) && Reaches(f, i)) {
      LatestInside(h, fs[..|fs| - 1], i);
    }
  }

  /** The counter test is about every octet of the payload. */
  lemma CountsAll(c: Context, h: Primary, fs: seq<Bundle>)
    requires Sound(c) && Assembles(c, h, fs)
    ensures Status(c) == if forall i: nat :: i < h.totalAdu ==> Latest(h, fs, i).Some? then 1 else 0
  {
    hide Latest;
    forall i: nat | Latest(h, fs, i).Some? ensures i < h.totalAdu && i < MAX_PAYLOAD {
      LatestInside(h, fs, i);
    }
    if h.totalAdu <= MAX_PAYLOAD {
      CountAtMost(c.received, h.totalAdu);
      if Status(c) == 1 {
        forall i: nat | i < h.totalAdu ensures Latest(h, fs, i).Some? {
          assert c.received[i];
        }
      } else {
        var i: nat :| i < h.totalAdu && !c.received[i];
        assert Latest(h, fs, i) == None;
      }
    } else {
      CountAtMost(c.received, MAX_PAYLOAD);
      assert Latest(h, fs, MAX_PAYLOAD) == None;
    }
  }

  /** What the next call returns: -1 iff the bundle does not belong, and 1 iff every octet has then been received. */
  lemma Returned(c: Context, fs: seq<Bundle>, f: Bundle)
    requires Sound(c) && !c.active
    ensures var r := AddFragment(AddEach(c, fs), f).status;
            match FirstHeader(fs + [f])
            case None => r == -1
            case Some(h) =>
              && (r == -1 <==> !Belongs(h, f))
              && (r == 1 <==> Belongs(h, f) && forall i: nat :: i < h.totalAdu ==> Latest(h, fs + [f], i).Some?)
  {
    hide *;
    var d, gs := AddEach(c, fs), fs + [f];
    NeverMixed(c, fs);
    FirstOfMore(fs, f);
    FirstOfOne(f);
    match FirstHeader(fs)
    case Some(h) =>
      AddOne(d, h, fs, f);
      CountsAll(AddFragment(d, f).ctx, h, gs);
    case None =>
      if IsFragment(f.primary.flags) {
        Starts(c, fs, f);
        AddOne(Activated(c, f.primary), f.primary, fs, f);
        CountsAll(AddFragment(d, f).ctx, f.primary, gs);
      } else {
        WholeRefused(c, f);
      }
  }
}
