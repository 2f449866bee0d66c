/** Fragmentation and reassembly of a payload (bp.c; sections 5.8 and 5.9 of RFC 9171). */
module Reassembly {
  import opened Bytes
  import opened Cbor
  import opened Bundle
  import opened Division

  const MAX_PAYLOAD := 65535

  // ---- Reassembly as a state machine ----

  /** data and received are the context's arrays; lifetime is remembered and not used again. */
  datatype Context = Context(active: bool, src: Uri, time: u64, sequence: u64, total: u64, lifetime: u64,
                             data: seq<byte>, received: seq<bool>)

  datatype Added = Added(ctx: Context, status: int)

  function Count(flags: seq<bool>): nat {
    if flags == [] then 0 else Count(flags[..|flags| - 1]) + if flags[|flags| - 1] then 1 else 0
  }

  predicate Sound(c: Context) {
    |c.data| == |c.received| == MAX_PAYLOAD && (!c.active ==> forall i :: 0 <= i < MAX_PAYLOAD ==> !c.received[i])
  }

  /** The first fragment fixes what the others must match. */
  function Activated(c: Context, p: Primary): Context {
    if c.active then c
    else c.(active := true, src := p.src, time := p.time, sequence := p.sequence, total := p.totalAdu, lifetime := p.lifetime)
  }

  predicate Matches(c: Context, p: Primary) {
    c.src == p.src && c.time == p.time && c.sequence == p.sequence && c.total == p.totalAdu
  }

  /** n octets at off, in the data and in the flags. */
  function Overwrite<T>(s: seq<T>, off: nat, with: seq<T>): (r: seq<T>)
    requires off + |with| <= |s|
    ensures |r| == |s|
  {
    s[..off] + with + s[off + |with|..]
  }

  function Marks(n: nat): (m: seq<bool>)
    ensures |m| == n
  {
    seq(n, _ => true)
  }

  function Store(c: Context, off: nat, payload: seq<byte>): Context
    requires Sound(c) && off + |payload| <= MAX_PAYLOAD
  {
    c.(data := Overwrite(c.data, off, payload), received := Overwrite(c.received, off, Marks(|payload|)))
  }

  function Status(c: Context): int {
    if Count(c.received) >= c.total then 1 else 0
  }

  /** What one call does: refused fragments still activate an idle context. */
  function AddFragment(c: Context, f: Bundle): Added
    requires Sound(c)
  {
    if !IsFragment(f.primary.flags) then Added(c, -1)
    else
      var d := Activated(c, f.primary);
      var end := f.primary.fragmentOffset + |f.payload|;
      if !Matches(d, f.primary) || end > d.total || end > MAX_PAYLOAD then Added(d, -1)
      else
        var e := Store(d, f.primary.fragmentOffset, f.payload);
        Added(e, Status(e))
  }

  lemma AddSound(c: Context, f: Bundle)
    requires Sound(c)
    ensures Sound(AddFragment(c, f).ctx)
  {
  }

  // ---- The counter ----

  /** Setting one flag changes the count by whether it was clear. */
  lemma {:induction false} CountSet(flags: seq<bool>, i: nat)
    requires i < |flags|
    ensures Count(flags[i := true]) == Count(flags) + if flags[i] then 0 else 1
    decreases |flags|
  {
    var n := |flags| - 1;
    var marked := flags[i := true];
    if i == n {
      assert marked[..n] == flags[..n];
    } else {
      CountSet(flags[..n], i);
      assert marked[..n] == flags[..n][i := true];
    }
  }

  lemma {:induction false} CountAtMost(flags: seq<bool>, n: nat)
    requires n <= |flags| && forall i :: n <= i < |flags| ==> !flags[i]
    ensures Count(flags) <= n
    ensures Count(flags) == n <==> forall i :: 0 <= i < n ==> flags[i]
    decreases |flags|
  {
    if flags != [] {
      var k := |flags| - 1;
      var head := flags[..k];
      if n > k {
        CountAtMost(head, k);
        assert (forall i :: 0 <= i < k ==> head[i]) ==> (forall i :: 0 <= i < k ==> flags[i]);
        if forall i :: 0 <= i < n ==> flags[i] {
          assert forall i :: 0 <= i < k ==> head[i];
        }
        if Count(flags) == n {
          assert flags[k] && forall i :: 0 <= i < k ==> head[i];
        }
      } else {
        CountAtMost(head, n);
        assert (forall i :: 0 <= i < n ==> head[i]) <==> (forall i :: 0 <= i < n ==> flags[i]) by {
          assert forall i :: 0 <= i < n ==> head[i] == flags[i];
        }
      }
    }
  }

  lemma MarkStep(flags: seq<bool>, off: nat, i: nat)
    requires off + i < |flags|
    ensures Overwrite(flags, off, Marks(i))[off + i := true] == Overwrite(flags, off, Marks(i + 1))
    ensures Overwrite(flags, off, Marks(i))[off + i] == flags[off + i]
  {
  }

  // ---- The context object ----

  class ReassemblyContext {
    var active: bool
    var src: Uri
    var time: u64
    var sequence: u64
    var totalAduLen: u64
    var lifetime: u64
    const data: array<byte>
    const received: array<bool>
    var bytesReceived: nat

    /** The counter is the number of set flags. */
    ghost predicate Valid()
      reads this, data, received
    {
      && data.Length == MAX_PAYLOAD && received.Length == MAX_PAYLOAD
      && Sound(State()) && bytesReceived == Count(received[..])
    }

    ghost function State(): Context
      reads this, data, received
    {
      Context(active, src, time, sequence, totalAduLen, lifetime, data[..], received[..])
    }

    constructor ()
      ensures Valid() && !active && fresh(data) && fresh(received)
    {
      active, src, time, sequence, totalAduLen, lifetime, bytesReceived := false, [], 0, 0, 0, 0, 0;
      data := new byte[MAX_PAYLOAD](_ => 0);
      received := new bool[MAX_PAYLOAD](_ => false);
      new;
      CountAtMost(received[..], 0);
    }

    method Add(f: Bundle) returns (status: int)
      requires Valid()
      modifies this, data, received
      ensures Valid()
      ensures var a := AddFragment(old(State()), f); State() == a.ctx && status == a.status
    {
      if f.primary.flags % 2 != 1 {
        return -1;
      }
      Activate(f.primary);
      if src != f.primary.src || time != f.primary.time || sequence != f.primary.sequence
         || totalAduLen != f.primary.totalAdu {
        return -1;
      }
      var off, end := f.primary.fragmentOffset, f.primary.fragmentOffset + |f.payload|;
      if end > totalAduLen || end > MAX_PAYLOAD {
        return -1;
      }
      CopyIn(off, f.payload);
      Mark(off, |f.payload|);
      return if bytesReceived >= totalAduLen then 1 else 0;
    }

    method Activate(p: Primary)
      requires Valid()
      modifies this
      ensures Valid() && State() == Activated(old(State()), p)
    {
      if !active {
        CountAtMost(received[..], 0);
        active, src, time, sequence := true, p.src, p.time, p.sequence;
        totalAduLen, lifetime, bytesReceived := p.totalAdu, p.lifetime, 0;
      }
    }

    method CopyIn(off: nat, payload: seq<byte>)
      requires Valid() && active && off + |payload| <= MAX_PAYLOAD
      modifies data
      ensures Valid() && data[..] == Overwrite(old(data[..]), off, payload)
    {
      forall i | 0 <= i < |payload| {
        data[off + i] := payload[i];
      }
      assert received[..] == old(received[..]);
    }

    /** Flags every octet of the range and counts those that were not flagged yet. */
    method Mark(off: nat, n: nat)
      requires Valid() && active && off + n <= MAX_PAYLOAD
      modifies this`bytesReceived, received
      ensures Valid() && received[..] == Overwrite(old(received[..]), off, Marks(n))
    {
      for i := 0 to n
        invariant bytesReceived == Count(received[..])
        invariant received[..] == Overwrite(old(received[..]), off, Marks(i))
      {
        CountSet(received[..], off + i);
        MarkStep(old(received[..]), off, i);
        if !received[off + i] {
          received[off + i] := true;
          bytesReceived := bytesReceived + 1;
        }
      }
    }
  }

  // ---- A payload in fragments ----

  datatype Piece = Piece(off: nat, len: nat)

  predicate Inside(q: Piece, n: nat) {
    q.off + q.len <= n
  }

  ghost predicate Covered(qs: seq<Piece>, i: nat) {
    exists k :: 0 <= k < |qs| && qs[k].off <= i < qs[k].off + qs[k].len
  }

  ghost predicate Complete(qs: seq<Piece>, length: nat) {
    forall i: nat :: i < length ==> Covered(qs, i)
  }

  /** The header every fragment of a payload shares, apart from its offset. */
  predicate Heading(h: Primary, payload: seq<byte>) {
    IsFragment(h.flags) && h.totalAdu == |payload| <= MAX_PAYLOAD
  }

  function Fragment(h: Primary, payload: seq<byte>, q: Piece): Bundle
    requires Heading(h, payload) && Inside(q, |payload|)
  {
    Bundle(h.(fragmentOffset := q.off), payload[q.off..q.off + q.len])
  }

  /** The context after the fragments of a sequence of pieces. */
  function AddAll(c: Context, h: Primary, payload: seq<byte>, qs: seq<Piece>): (r: Context)
    requires Sound(c) && Heading(h, payload) && forall k :: 0 <= k < |qs| ==> Inside(qs[k], |payload|)
    ensures Sound(r)
    decreases |qs|
  {
    if qs == [] then c
    else
      var n := |qs| - 1;
      AddSound(AddAll(c, h, payload, qs[..n]), Fragment(h, payload, qs[n]));
      AddFragment(AddAll(c, h, payload, qs[..n]), Fragment(h, payload, qs[n])).ctx
  }

  /** What the context holds after some pieces of a payload. */
  ghost predicate Holds(c: Context, h: Primary, payload: seq<byte>, qs: seq<Piece>)
    requires Sound(c) && Heading(h, payload)
  {
    && (if qs == [] then !c.active else c.active && Matches(c, h))
    && (forall i :: 0 <= i < MAX_PAYLOAD ==> (c.received[i] <==> Covered(qs, i)))
    && (forall i :: 0 <= i < |payload| && c.received[i] ==> c.data[i] == payload[i])
  }

  lemma CoveredLast(qs: seq<Piece>, i: nat)
    requires qs != []
    ensures var n := |qs| - 1;
            Covered(qs, i) <==> Covered(qs[..n], i) || qs[n].off <= i < qs[n].off + qs[n].len
  {
    var n := |qs| - 1;
    if Covered(qs[..n], i) {
      var k :| 0 <= k < n && qs[..n][k].off <= i < qs[..n][k].off + qs[..n][k].len;
      assert qs[k].off <= i < qs[k].off + qs[k].len;
    }
    if Covered(qs, i) && !(qs[n].off <= i < qs[n].off + qs[n].len) {
      var k :| 0 <= k < |qs| && qs[k].off <= i < qs[k].off + qs[k].len;
      assert qs[..n][k] == qs[k];
    }
  }

  /** One more fragment: never refused, and the context holds exactly one more piece. */
  lemma AddHolds(c: Context, h: Primary, payload: seq<byte>, qs: seq<Piece>)
    requires Sound(c) && Heading(h, payload) && qs != [] && Inside(qs[|qs| - 1], |payload|)
    requires Holds(c, h, payload, qs[..|qs| - 1])
    ensures var a := AddFragment(c, Fragment(h, payload, qs[|qs| - 1]));
            && Sound(a.ctx) && Holds(a.ctx, h, payload, qs) && a.status == Status(a.ctx)
  {
    hide Overwrite;
    var q := qs[|qs| - 1];
    var f := Fragment(h, payload, q);
    AddSound(c, f);
    var d := Activated(c, f.primary);
    var a := Store(d, q.off, f.payload);
    assert AddFragment(c, f).ctx == a;
    StoreAt(d, q.off, f.payload);
    forall i | 0 <= i < MAX_PAYLOAD ensures a.received[i] <==> Covered(qs, i) {
      CoveredLast(qs, i);
    }
  }

  lemma StoreAt(c: Context, off: nat, payload: seq<byte>)
    requires Sound(c) && off + |payload| <= MAX_PAYLOAD
    ensures var a := Store(c, off, payload);
            forall i :: 0 <= i < MAX_PAYLOAD ==>
              && a.received[i] == (c.received[i] || off <= i < off + |payload|)
              && a.data[i] == if off <= i < off + |payload| then payload[i - off] else c.data[i]
  {
  }

  lemma {:induction false} AllHold(c: Context, h: Primary, payload: seq<byte>, qs: seq<Piece>)
    requires Sound(c) && !c.active && Heading(h, payload) && forall k :: 0 <= k < |qs| ==> Inside(qs[k], |payload|)
    ensures Holds(AddAll(c, h, payload, qs), h, payload, qs)
    decreases |qs|
  {
    if qs != [] {
      AllHold(c, h, payload, qs[..|qs| - 1]);
      AddHolds(AddAll(c, h, payload, qs[..|qs| - 1]), h, payload, qs);
    }
  }

  lemma StatusMeans(c: Context, h: Primary, payload: seq<byte>, qs: seq<Piece>)
    requires Sound(c) && Heading(h, payload) && qs != [] && Holds(c, h, payload, qs)
    requires forall k :: 0 <= k < |qs| ==> Inside(qs[k], |payload|)
    ensures Status(c) == 1 <==> Complete(qs, |payload|)
    ensures Status(c) == 1 ==> c.data[..|payload|] == payload
  {
    CountAtMost(c.received, |payload|);
    if Complete(qs, |payload|) {
      assert forall i :: 0 <= i < |payload| ==> c.received[i];
    }
    if Status(c) == 1 {
      assert forall i: nat :: i < |payload| ==> c.received[i];
    }
  }

  /**
   * Fragments of a payload, in any order, overlapping and repeated in any way: none is refused, the call
   * returns 1 exactly when the pieces so far cover the payload, and then the data is the payload.
   */
  lemma Reassembled(c: Context, h: Primary, payload: seq<byte>, qs: seq<Piece>)
    requires Sound(c) && !c.active && Heading(h, payload) && qs != []
    requires forall k :: 0 <= k < |qs| ==> Inside(qs[k], |payload|)
    ensures var n := |qs| - 1;
            var a := AddFragment(AddAll(c, h, payload, qs[..n]), Fragment(h, payload, qs[n]));
            && (a.status == 1 || a.status == 0)
            && (a.status == 1 <==> Complete(qs, |payload|))
            && (a.status == 1 ==> a.ctx.data[..|payload|] == payload)
  {
    var n := |qs| - 1;
    AllHold(c, h, payload, qs[..n]);
    AddHolds(AddAll(c, h, payload, qs[..n]), h, payload, qs);
    StatusMeans(AddFragment(AddAll(c, h, payload, qs[..n]), Fragment(h, payload, qs[n])).ctx, h, payload, qs);
  }

  // ---- Fragments as octets ----

  /** A received octet string: decoded, and added when it parses. */
  function Receive(c: Context, buf: seq<byte>): Added
    requires Sound(c)
  {
    match Decode(buf)
    case Bad => Added(c, -1)
    case Got(b, rest) => AddFragment(c, b)
  }

  /** An encoded fragment is added as the fragment it was made from. */
  lemma ReceiveEncoded(c: Context, h: Primary, payload: seq<byte>, q: Piece)
    requires Sound(c) && Heading(h, payload) && Inside(q, |payload|)
    requires Encodable(h) && HasScheme(h.src) && HasScheme(h.dst)
    ensures var f := Fragment(h, payload, q);
            Receive(c, Encode(f.primary, f.payload)) == AddFragment(c, f)
  {
    var f := Fragment(h, payload, q);
    BundleRoundTrip(f.primary, f.payload, []);
    assert Encode(f.primary, f.payload) + [] == Encode(f.primary, f.payload);
  }

  function ReceiveAll(c: Context, bufs: seq<seq<byte>>): (r: Context)
    requires Sound(c)
    ensures Sound(r)
    decreases |bufs|
  {
    if bufs == [] then c
    else
      var d := ReceiveAll(c, bufs[..|bufs| - 1]);
      ReceiveSound(d, bufs[|bufs| - 1]);
      Receive(d, bufs[|bufs| - 1]).ctx
  }

  lemma ReceiveSound(c: Context, buf: seq<byte>)
    requires Sound(c)
    ensures Sound(Receive(c, buf).ctx)
  {
    match Decode(buf)
    case Bad =>
    case Got(b, rest) => AddSound(c, b);
  }

  /** bufs are the encodings of the pieces qs of a payload, in that order. */
  ghost predicate Encoded(bufs: seq<seq<byte>>, h: Primary, payload: seq<byte>, qs: seq<Piece>)
    requires Heading(h, payload)
  {
    && |bufs| == |qs|
    && forall k :: 0 <= k < |qs| ==>
         Inside(qs[k], |payload|)
         && bufs[k] == Encode(Fragment(h, payload, qs[k]).primary, Fragment(h, payload, qs[k]).payload)
  }

  lemma {:induction false} ReceiveAllAdds(c: Context, h: Primary, payload: seq<byte>, qs: seq<Piece>, bufs: seq<seq<byte>>)
    requires Sound(c) && Heading(h, payload) && Encoded(bufs, h, payload, qs)
    requires Encodable(h) && HasScheme(h.src) && HasScheme(h.dst)
    ensures ReceiveAll(c, bufs) == AddAll(c, h, payload, qs)
    decreases |qs|
  {
    if qs != [] {
      var n := |qs| - 1;
      ReceiveAllAdds(c, h, payload, qs[..n], bufs[..n]);
      ReceiveEncoded(AddAll(c, h, payload, qs[..n]), h, payload, qs[n]);
    }
  }

  /**
   * From octets to payload: the encoded fragments of a payload between dtn: endpoints, received in any order
   * and with any repetitions, are all accepted; the last call returns 1 exactly when the pieces received cover
   * the payload, and then the data is the payload.
   */
  lemma OctetsReassembled(c: Context, h: Primary, payload: seq<byte>, qs: seq<Piece>, bufs: seq<seq<byte>>)
    requires Sound(c) && !c.active && Heading(h, payload) && qs != [] && Encoded(bufs, h, payload, qs)
    requires Encodable(h) && HasScheme(h.src) && HasScheme(h.dst)
    ensures var a := Receive(ReceiveAll(c, bufs[..|bufs| - 1]), bufs[|bufs| - 1]);
            && (a.status == 1 || a.status == 0)
            && (a.status == 1 <==> Complete(qs, |payload|))
            && (a.status == 1 ==> a.ctx.data[..|payload|] == payload)
  {
    var n := |qs| - 1;
    Reassembled(c, h, payload, qs);
    ReceiveAllAdds(c, h, payload, qs[..n], bufs[..n]);
    ReceiveEncoded(AddAll(c, h, payload, qs[..n]), h, payload, qs[n]);
  }

  // ---- Fixed-size fragmentation ----

  function FragmentCount(length: nat, size: nat): int {
    if size == 0 then -1 else (length + size - 1) / size
  }

  /** Cells of the given size, the last one short. */
  function Cut(length: nat, size: nat, from: nat): seq<Piece>
    requires size > 0
    decreases length - from
  {
    if from >= length then []
    else
      var n := if length - from > size then size else length - from;
      [Piece(from, n)] + Cut(length, size, from + n)
  }

  lemma {:induction false} CutCount(length: nat, size: nat, from: nat)
    requires size > 0 && from <= length
    ensures |Cut(length, size, from)| == FragmentCount(length - from, size)
    decreases length - from
  {
    if from < length {
      CutCount(length, size, from + if length - from > size then size else length - from);
      CeilStep(length - from, size);
    } else {
      CeilNone(size);
    }
  }

  /** Cells in order, none empty, each starting where the one before it ends or later. */
  ghost predicate Cells(qs: seq<Piece>, from: nat, length: nat) {
    && (forall k :: 0 <= k < |qs| ==> from <= qs[k].off && qs[k].len > 0 && Inside(qs[k], length))
    && (forall j, k :: 0 <= j < k < |qs| ==> qs[j].off + qs[j].len <= qs[k].off)
  }

  lemma {:induction false} CutCells(length: nat, size: nat, from: nat)
    requires size > 0 && from <= length
    ensures Cells(Cut(length, size, from), from, length)
    ensures forall i: nat :: from <= i < length ==> Covered(Cut(length, size, from), i)
    decreases length - from
  {
    if from < length {
      var n := if length - from > size then size else length - from;
      CutCells(length, size, from + n);
      CellsCons(Piece(from, n), Cut(length, size, from + n), length);
    }
  }

  lemma CellsCons(q: Piece, rest: seq<Piece>, length: nat)
    requires q.len > 0 && Inside(q, length) && Cells(rest, q.off + q.len, length)
    requires forall i: nat :: q.off + q.len <= i < length ==> Covered(rest, i)
    ensures Cells([q] + rest, q.off, length)
    ensures forall i: nat :: q.off <= i < length ==> Covered([q] + rest, i)
  {
    var qs := [q] + rest;
    forall i: nat | q.off <= i < length ensures Covered(qs, i) {
      if i < q.off + q.len {
        assert qs[0].off <= i < qs[0].off + qs[0].len;
      } else {
        assert Covered(rest, i);
        var k :| 0 <= k < |rest| && rest[k].off <= i < rest[k].off + rest[k].len;
        assert qs[k + 1] == rest[k];
      }
    }
  }

  function Chosen(cells: seq<Piece>, ks: seq<nat>): (qs: seq<Piece>)
    requires forall j :: 0 <= j < |ks| ==> ks[j] < |cells|
    ensures |qs| == |ks| && forall j :: 0 <= j < |ks| ==> qs[j] == cells[ks[j]]
  {
    if ks == [] then [] else [cells[ks[0]]] + Chosen(cells, ks[1..])
  }

  /** Fixed-size fragments cover the payload exactly when every one of them has been received at least once. */
  lemma AllCells(length: nat, size: nat, ks: seq<nat>)
    requires size > 0 && forall j :: 0 <= j < |ks| ==> ks[j] < |Cut(length, size, 0)|
    ensures Complete(Chosen(Cut(length, size, 0), ks), length)
            <==> forall k: nat :: k < FragmentCount(length, size) ==> k in ks
  {
    var cells := Cut(length, size, 0);
    CutCount(length, size, 0);
    CutCells(length, size, 0);
    if Complete(Chosen(cells, ks), length) {
      forall k: nat | k < |cells| ensures k in ks {
        EachCell(cells, ks, length, k);
      }
    }
    if forall k: nat :: k < |cells| ==> k in ks {
      EveryByte(cells, ks, length);
    }
  }

  lemma EachCell(cells: seq<Piece>, ks: seq<nat>, length: nat, k: nat)
    requires Cells(cells, 0, length) && forall j :: 0 <= j < |ks| ==> ks[j] < |cells|
    requires Complete(Chosen(cells, ks), length) && k < |cells|
    ensures k in ks
  {
    var qs := Chosen(cells, ks);
    assert Covered(qs, cells[k].off);
    var j :| 0 <= j < |qs| && qs[j].off <= cells[k].off < qs[j].off + qs[j].len;
    OneCell(cells, k, ks[j]);
  }

  lemma EveryByte(cells: seq<Piece>, ks: seq<nat>, length: nat)
    requires forall j :: 0 <= j < |ks| ==> ks[j] < |cells|
    requires Complete(cells, length) && forall k: nat :: k < |cells| ==> k in ks
    ensures Complete(Chosen(cells, ks), length)
  {
    var qs := Chosen(cells, ks);
    forall i: nat | i < length ensures Covered(qs, i) {
      assert Covered(cells, i);
      var k :| 0 <= k < |cells| && cells[k].off <= i < cells[k].off + cells[k].len;
      assert k in ks;
      var j :| 0 <= j < |ks| && ks[j] == k;
      assert qs[j] == cells[k];
    }
  }

  lemma OneCell(cells: seq<Piece>, k: nat, m: nat)
    requires k < |cells| && m < |cells| && cells[k].len > 0
    requires forall i, j :: 0 <= i < j < |cells| ==> cells[i].off + cells[i].len <= cells[j].off
    requires cells[m].off <= cells[k].off < cells[m].off + cells[m].len
    ensures m == k
  {
  }
}
