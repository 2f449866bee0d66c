/**
 * Self-delimiting numeric values (sdnv.c; section 2 of RFC 6256): base-128 groups, most significant
 * first, the top bit of every group but the last set.
 */
module Sdnv {
  import opened Bytes

  const MAX_BYTES := 10
  const INT64_LIMIT: nat := 0x8000_0000_0000_0000
  const SHIFT_LIMIT: nat := 0x200_0000_0000_0000   // UINT64_MAX >> 7, plus one

  datatype Decoded = Decoded(value: nat, used: nat)

  // ---- The encoding and its meaning ----

  /** The groups above the last one, each with its continuation bit. */
  function High(u: nat): seq<byte> {
    if u == 0 then [] else High(u / 128) + [128 + u % 128]
  }

  function Encode(v: nat): seq<byte> {
    High(v / 128) + [v % 128]
  }

  /** The unbounded base-128 value of a run of groups. */
  function Value(groups: seq<byte>): nat {
    if groups == [] then 0 else Value(groups[..|groups| - 1]) * 128 + groups[|groups| - 1] % 128
  }

  /** Position of the first group without a continuation bit; |buf| when the buffer is truncated. */
  function Terminator(buf: seq<byte>): (k: nat)
    ensures k <= |buf|
    ensures k < |buf| ==> buf[k] < 128
    ensures forall i :: 0 <= i < k ==> 128 <= buf[i]
  {
    if buf == [] then 0 else if buf[0] < 128 then 0 else 1 + Terminator(buf[1..])
  }

  /** What a decoder must return: the true value of the first terminated run, when it is below 2^63. */
  function Decode(buf: seq<byte>): Option<Decoded> {
    var k := Terminator(buf);
    if k < |buf| && Value(buf[..k + 1]) < INT64_LIMIT then Some(Decoded(Value(buf[..k + 1]), k + 1)) else None
  }

  // ---- Lemmas about the encoding ----

  lemma TerminatorUnique(buf: seq<byte>, k: nat)
    requires k < |buf| && buf[k] < 128
    requires forall i :: 0 <= i < k ==> 128 <= buf[i]
    ensures Terminator(buf) == k
  {
    var t := Terminator(buf);
    if t < k {
      assert false;
    }
  }

  lemma Digit(u: nat)
    ensures u == u / 128 * 128 + u % 128 && (128 + u % 128) % 128 == u % 128
  {
  }

  lemma {:induction false} HighShape(u: nat)
    ensures Value(High(u)) == u
    ensures forall i :: 0 <= i < |High(u)| ==> 128 <= High(u)[i]
  {
    assert Value([]) == 0;
    hide Value;
    if u != 0 {
      var h := High(u / 128);
      HighShape(u / 128);
      Digit(u);
      LastGroup(h, 128 + u % 128);
      MarkedAppend(h, 128 + u % 128);
    }
  }

  /** Every group but the last is marked as continued, and the groups mean the number encoded. */
  lemma EncodeShape(v: nat)
    ensures Value(Encode(v)) == v
    ensures Encode(v)[|Encode(v)| - 1] < 128
    ensures forall i :: 0 <= i < |Encode(v)| - 1 ==> 128 <= Encode(v)[i]
  {
    hide High, Value;
    HighShape(v / 128);
    LastGroup(High(v / 128), v % 128);
    GroupsShape(High(v / 128), v % 128);
    assert v == v / 128 * 128 + v % 128;
  }

  lemma MarkedAppend(h: seq<byte>, g: byte)
    requires g >= 128 && forall i :: 0 <= i < |h| ==> 128 <= h[i]
    ensures forall i :: 0 <= i < |h + [g]| ==> 128 <= (h + [g])[i]
  {
  }

  lemma GroupsShape(h: seq<byte>, g: byte)
    requires g < 128 && forall i :: 0 <= i < |h| ==> 128 <= h[i]
    ensures var e := h + [g]; e[|e| - 1] < 128 && forall i :: 0 <= i < |e| - 1 ==> 128 <= e[i]
  {
  }

  lemma LastGroup(h: seq<byte>, g: byte)
    ensures Value(h + [g]) == Value(h) * 128 + g % 128
  {
    assert (h + [g])[..|h + [g]| - 1] == h;
  }

  /**
   * The round trip, with the exact condition: the decoder gives back every number below 2^63 and
   * refuses every other number that the encoder writes without complaint.
   */
  lemma DecodeEncode(v: nat, rest: seq<byte>)
    ensures Decode(Encode(v) + rest) == if v < INT64_LIMIT then Some(Decoded(v, |Encode(v)|)) else None
  {
    EncodeShape(v);
    var e := Encode(v);
    TerminatorUnique(e + rest, |e| - 1);
    assert (e + rest)[..|e|] == e;
  }

  /** An encoding cut short is refused. */
  lemma DecodeTruncated(v: nat, k: nat)
    requires k < |Encode(v)|
    ensures Decode(Encode(v)[..k]) == None
  {
    hide High, Value;
    EncodeShape(v);
    var b := Encode(v)[..k];
    assert forall i :: 0 <= i < k ==> b[i] == Encode(v)[i];
  }

  /** Prefix-freedom: two encodings that start the same byte stream are the same number. */
  lemma EncodePrefixFree(v: nat, w: nat, r: seq<byte>, s: seq<byte>)
    requires Encode(v) + r == Encode(w) + s
    ensures v == w && r == s
  {
    EncodeShape(v);
    EncodeShape(w);
    var x := Encode(v) + r;
    TerminatorUnique(x, |Encode(v)| - 1);
    TerminatorUnique(x, |Encode(w)| - 1);
    assert Encode(v) == x[..|Encode(v)|] == Encode(w);
    assert r == x[|Encode(v)|..] == s;
  }

  function Pow128(n: nat): (p: nat)
    ensures p >= 1
  {
    if n == 0 then 1 else 128 * Pow128(n - 1)
  }

  lemma {:induction false} ValueBound(g: seq<byte>)
    ensures Value(g) < Pow128(|g|)
  {
    if g != [] {
      ValueBound(g[..|g| - 1]);
    }
  }

  lemma {:induction false} HighLength(u: nat)
    ensures u != 0 ==> Pow128(|High(u)| - 1) <= u
    ensures u == 0 ==> High(u) == []
  {
    if u != 0 {
      HighLength(u / 128);
      if u / 128 != 0 {
        assert Pow128(|High(u)| - 1) == 128 * Pow128(|High(u / 128)| - 1);
      }
    }
  }

  lemma {:induction false} Pow128Monotone(a: nat, b: nat)
    requires a <= b
    ensures Pow128(a) <= Pow128(b)
  {
    if a < b {
      Pow128Monotone(a, b - 1);
    }
  }

  /** No run of groups with the same value is shorter. */
  lemma EncodeShortest(v: nat, g: seq<byte>)
    requires g != [] && Value(g) == v
    ensures |Encode(v)| <= |g|
  {
    var h := High(v / 128);
    HighLength(v / 128);
    ValueBound(g);
    var m := if |g| <= |h| then |g| else |h|;
    if v / 128 != 0 && m > 0 {
      Pow128Monotone(m - 1, |h| - 1);
      assert Pow128(m) == 128 * Pow128(m - 1) <= v;
    }
  }

  /** Ten groups hold exactly the numbers below 2^70, so every 64-bit number fits. */
  lemma EncodeFitsTen(v: nat)
    ensures |Encode(v)| <= MAX_BYTES <==> v < 0x40_0000_0000_0000_0000
    ensures |Encode(v)| <= 9 <==> v < INT64_LIMIT
  {
    EncodeShape(v);
    ValueBound(Encode(v));
    HighLength(v / 128);
    assert Pow128(9) == INT64_LIMIT;
    assert Pow128(10) == 0x40_0000_0000_0000_0000;
    if |Encode(v)| <= 9 { Pow128Monotone(|Encode(v)|, 9); } else { Pow128Monotone(8, |Encode(v)| - 2); }
    if |Encode(v)| <= 10 { Pow128Monotone(|Encode(v)|, 10); } else { Pow128Monotone(9, |Encode(v)| - 2); }
    assert Pow128(8) == 0x100_0000_0000_0000;
  }

  /** Once a prefix is too large, every longer run is too. */
  lemma {:induction false} ValueGrows(g: seq<byte>, i: nat)
    requires i <= |g|
    ensures Value(g[..i]) <= Value(g)
  {
    if i < |g| {
      ValueGrows(g[..|g| - 1], i);
      assert g[..|g| - 1][..i] == g[..i];
    } else {
      assert g[..i] == g;
    }
  }

  // ---- The loops ----

  /**
   * Writes the encoding at pos; size is what the caller leaves in the buffer. Nothing is written
   * unless the whole encoding fits.
   */
  method SdnvEncode(value: nat, out: array<byte>, pos: nat) returns (n: int)
    requires pos <= out.Length
    modifies out
    ensures n == if |Encode(value)| <= MAX_BYTES && pos + |Encode(value)| <= out.Length then |Encode(value)| else -1
    ensures n < 0 ==> out[..] == old(out[..])
    ensures n >= 0 ==> out[..] == old(out[..pos]) + Encode(value) + old(out[pos + |Encode(value)|..])
  {
    if pos == out.Length {
      return -1;
    }
    var tmp := new byte[MAX_BYTES];
    tmp[0] := value % 128;
    var rest: nat := value / 128;
    var nbytes := 1;
    while rest > 0
      invariant 1 <= nbytes <= MAX_BYTES
      invariant |Encode(value)| == |High(rest)| + nbytes
      invariant High(rest) <= Encode(value)
      invariant forall i :: 0 <= i < nbytes ==> tmp[i] == Encode(value)[|Encode(value)| - 1 - i]
      invariant out[..] == old(out[..])
    {
      if nbytes >= MAX_BYTES {
        return -1;
      }
      ghost var e := Encode(value);
      ghost var h := High(rest);
      assert h[|h| - 1] == 128 + rest % 128 == e[|h| - 1];
      tmp[nbytes] := rest % 128 + 128;
      rest := rest / 128;
      nbytes := nbytes + 1;
    }
    if nbytes > out.Length - pos {
      return -1;
    }
    for i := 0 to nbytes
      modifies out
      invariant forall k :: pos <= k < pos + i ==> out[k] == Encode(value)[k - pos]
      invariant forall k :: 0 <= k < out.Length && !(pos <= k < pos + i) ==> out[k] == old(out[k])
    {
      out[pos + i] := tmp[nbytes - 1 - i];
    }
    n := nbytes;
  }

  /** Reads one number from the front of the buffer: exactly Decode, with -1 for every refusal. */
  method SdnvDecode(buf: seq<byte>) returns (n: int, value: nat)
    ensures n >= -1 && Decode(buf) == if n < 0 then None else Some(Decoded(value, n))
  {
    value := 0;
    if |buf| == 0 {
      return -1, 0;
    }
    var result := 0;
    for i := 0 to |buf|
      invariant result == Value(buf[..i]) < INT64_LIMIT
      invariant forall k :: 0 <= k < i ==> 128 <= buf[k]
    {
      assert buf[..i + 1][..i] == buf[..i];
      if result >= SHIFT_LIMIT {
        TooLarge(buf, i);
        return -1, 0;
      }
      result := result * 128 + buf[i] % 128;
      if result >= INT64_LIMIT {
        TooLarge(buf, i);
        return -1, 0;
      }
      if buf[i] < 128 {
        TerminatorUnique(buf, i);
        return i + 1, result;
      }
    }
    return -1, 0;
  }

  lemma TooLarge(buf: seq<byte>, i: nat)
    requires i < |buf| && INT64_LIMIT <= Value(buf[..i + 1])
    requires forall k :: 0 <= k < i ==> 128 <= buf[k]
    ensures Decode(buf) == None
  {
    var k := Terminator(buf);
    if k < |buf| {
      assert i <= k;
      ValueGrows(buf[..k + 1], i + 1);
      assert buf[..k + 1][..i + 1] == buf[..i + 1];
    }
  }

  /** Every decoded number took at least one byte and lies below 2^63. */
  lemma DecodeBounds(buf: seq<byte>)
    requires Decode(buf).Some?
    ensures 1 <= Decode(buf).value.used <= |buf| && Decode(buf).value.value < INT64_LIMIT
  {
  }
}
