/** The subset of CBOR (section 3 of RFC 8949) that cbor.c reads and writes. */
module Cbor {
  import opened Bytes
  import opened Sequences

  const U64_LIMIT: nat := 0x1_0000_0000_0000_0000

  type u64 = x: nat | x < U64_LIMIT

  const UINT := 0
  const BSTR := 2
  const TSTR := 3
  const ARRAY := 4
  const INDEF_ARRAY: byte := 0x9F
  const BREAK: byte := 0xFF

  // ---- Encoding ----

  /** The n low octets of v, most significant first. */
  function BigEndian(v: nat, n: nat): (r: seq<byte>)
    ensures |r| == n
    decreases n
  {
    if n == 0 then [] else BigEndian(v / 256, n - 1) + [v % 256]
  }

  function FromBigEndian(b: seq<byte>): nat {
    if b == [] then 0 else FromBigEndian(b[..|b| - 1]) * 256 + b[|b| - 1]
  }

  /** How many octets follow the first one of a head. */
  function Width(arg: u64): (w: nat)
    ensures w <= 8
  {
    if arg <= 23 then 0 else if arg <= 0xFF then 1 else if arg <= 0xFFFF then 2 else if arg <= 0xFFFF_FFFF then 4 else 8
  }

  /** The additional information that announces that width. */
  function Info(arg: u64): byte {
    if arg <= 23 then arg else if arg <= 0xFF then 24 else if arg <= 0xFFFF then 25 else if arg <= 0xFFFF_FFFF then 26 else 27
  }

  function Head(major: nat, arg: u64): (h: seq<byte>)
    requires major < 8
    ensures |h| == 1 + Width(arg)
  {
    [major * 32 + Info(arg)] + BigEndian(arg, Width(arg))
  }

  function Uint(v: u64): seq<byte> {
    Head(UINT, v)
  }

  function Text(major: nat, s: seq<byte>): seq<byte>
    requires major < 8 && |s| < U64_LIMIT
  {
    Head(major, |s|) + s
  }

  // ---- Decoding ----

  /** What a decoder read and what is left after it. */
  datatype Got<+T> = Bad | Got(value: T, rest: seq<byte>) {
    predicate IsFailure() { Bad? }
    function PropagateFailure<U>(): Got<U>
      requires Bad?
    {
      Bad
    }
    function Extract(): (T, seq<byte>)
      requires Got?
    {
      (value, rest)
    }
  }

  datatype HeadOf = HeadOf(major: byte, arg: u64)

  /** The number of octets additional information announces; 9 for the reserved and indefinite forms. */
  function Announced(info: byte): (w: nat)
    ensures w <= 9
  {
    if info <= 23 then 0 else if info == 24 then 1 else if info == 25 then 2 else if info == 26 then 4
    else if info == 27 then 8 else 9
  }

  function TakeHead(buf: seq<byte>): (g: Got<HeadOf>)
    ensures g.Got? ==> g.value.major < 8 && |g.rest| < |buf|
  {
    if |buf| < 1 then Bad
    else
      var info := buf[0] % 32;
      var w := Announced(info);
      if w > 8 || |buf| < 1 + w then Bad
      else if w == 0 then Got(HeadOf(buf[0] / 32, info), buf[1..])
      else
        BigEndianBound(buf[1..1 + w]);
        Got(HeadOf(buf[0] / 32, FromBigEndian(buf[1..1 + w])), buf[1 + w..])
  }

  function TakeNumber(buf: seq<byte>, major: nat): (g: Got<u64>)
    ensures g.Got? ==> |g.rest| < |buf|
  {
    var (h, rest) :- TakeHead(buf);
    if h.major != major then Bad else Got(h.arg, rest)
  }

  function TakeUint(buf: seq<byte>): (g: Got<u64>)
    ensures g.Got? ==> |g.rest| < |buf|
  {
    TakeNumber(buf, UINT)
  }

  function TakeArray(buf: seq<byte>): (g: Got<u64>)
    ensures g.Got? ==> |g.rest| < |buf|
  {
    TakeNumber(buf, ARRAY)
  }

  function TakeText(buf: seq<byte>, major: nat): (g: Got<seq<byte>>)
    ensures g.Got? ==> |g.rest| < |buf| && |g.value| < |buf|
  {
    var (n, rest) :- TakeNumber(buf, major);
    if n > |rest| then Bad else Got(rest[..n], rest[n..])
  }

  // ---- Numbers as octets ----

  function Pow256(n: nat): (p: nat)
    ensures p >= 1
  {
    if n == 0 then 1 else 256 * Pow256(n - 1)
  }

  lemma {:induction false} FromBound(b: seq<byte>)
    ensures FromBigEndian(b) < Pow256(|b|)
  {
    if b != [] {
      FromBound(b[..|b| - 1]);
    }
  }

  lemma Pow256Limits()
    ensures Pow256(1) == 0x100 && Pow256(2) == 0x1_0000 && Pow256(4) == 0x1_0000_0000 && Pow256(8) == U64_LIMIT
  {
    assert Pow256(4) == 256 * (256 * Pow256(2));
    assert Pow256(6) == 256 * (256 * Pow256(4));
    assert Pow256(8) == 256 * (256 * Pow256(6));
  }

  lemma {:induction false} Pow256Grows(n: nat, m: nat)
    requires n <= m
    ensures Pow256(n) <= Pow256(m)
  {
    if n < m {
      Pow256Grows(n, m - 1);
    }
  }

  lemma BigEndianBound(b: seq<byte>)
    requires |b| <= 8
    ensures FromBigEndian(b) < U64_LIMIT
  {
    FromBound(b);
    Pow256Grows(|b|, 8);
    Pow256Limits();
  }

  lemma {:induction false} BigEndianBack(v: nat, n: nat)
    requires v < Pow256(n)
    ensures FromBigEndian(BigEndian(v, n)) == v
    decreases n
  {
    if n > 0 {
      BigEndianBack(v / 256, n - 1);
      var b := BigEndian(v, n);
      assert b[..|b| - 1] == BigEndian(v / 256, n - 1);
    }
  }

  lemma WidthEnough(arg: u64)
    ensures arg > 23 ==> arg < Pow256(Width(arg))
    ensures Announced(Info(arg)) == Width(arg)
  {
    Pow256Limits();
  }

  /** Every head is read back, whatever follows it. */
  lemma HeadRoundTrip(major: nat, arg: u64, rest: seq<byte>)
    requires major < 8
    ensures TakeHead(Head(major, arg) + rest) == Got(HeadOf(major, arg), rest)
  {
    hide BigEndian, FromBigEndian, TakeHead;
    WidthEnough(arg);
    ReadHead(major * 32 + Info(arg), BigEndian(arg, Width(arg)), rest);
    if arg > 23 {
      BigEndianBack(arg, Width(arg));
    }
  }

  lemma ReadHead(first: byte, body: seq<byte>, rest: seq<byte>)
    requires |body| == Announced(first % 32) <= 8
    ensures FromBigEndian(body) < U64_LIMIT
    ensures TakeHead([first] + body + rest)
         == Got(HeadOf(first / 32, if body == [] then first % 32 else FromBigEndian(body)), rest)
  {
    var buf := [first] + body + rest;
    BigEndianBound(body);
    assert buf[1..1 + |body|] == body && buf[1 + |body|..] == rest;
  }

  /** The encoder's head is the shortest that the decoder reads as the same head. */
  lemma HeadShortest(buf: seq<byte>)
    requires TakeHead(buf).Got?
    ensures |Head(TakeHead(buf).value.major, TakeHead(buf).value.arg)| <= |buf| - |TakeHead(buf).rest|
  {
    var w := Announced(buf[0] % 32);
    if w > 0 {
      FromBound(buf[1..1 + w]);
      Pow256Limits();
    }
  }

  lemma UintRoundTrip(v: u64, rest: seq<byte>)
    ensures TakeUint(Uint(v) + rest) == Got(v, rest)
  {
    HeadRoundTrip(UINT, v, rest);
  }

  lemma ArrayRoundTrip(n: u64, rest: seq<byte>)
    ensures TakeArray(Head(ARRAY, n) + rest) == Got(n, rest)
  {
    HeadRoundTrip(ARRAY, n, rest);
  }

  lemma TextRoundTrip(major: nat, s: seq<byte>, rest: seq<byte>)
    requires major < 8 && |s| < U64_LIMIT
    ensures TakeText(Text(major, s) + rest, major) == Got(s, rest)
  {
    HeadRoundTrip(major, |s|, s + rest);
    assert Text(major, s) + rest == Head(major, |s|) + (s + rest);
    assert (s + rest)[..|s|] == s && (s + rest)[|s|..] == rest;
  }

  // ---- Well-formedness, independently of the decoders ----

  /**
   * Skips one well-formed data item: a number or simple value, a definite-length string, an array of as many
   * items as it announces, a map of twice as many, a tagged item, or an indefinite-length array up to its break.
   */
  function SkipItem(buf: seq<byte>): (g: Option<seq<byte>>)
    ensures g.Some? ==> |g.value| < |buf|
    decreases |buf|, 0
  {
    if buf != [] && buf[0] == INDEF_ARRAY then SkipToBreak(buf[1..])
    else
      match TakeHead(buf)
      case Bad => None
      case Got(h, rest) =>
        if h.major == 0 || h.major == 1 || h.major == 7 then Some(rest)
        else if h.major == 2 || h.major == 3 then if h.arg > |rest| then None else Some(rest[h.arg..])
        else SkipItems(rest, if h.major == 4 then h.arg else if h.major == 5 then 2 * h.arg else 1)
  }

  function SkipItems(buf: seq<byte>, n: nat): (g: Option<seq<byte>>)
    ensures g.Some? ==> |g.value| <= |buf|
    decreases |buf|, 1
  {
    if n == 0 then Some(buf)
    else
      match SkipItem(buf)
      case None => None
      case Some(rest) => SkipItems(rest, n - 1)
  }

  function SkipToBreak(buf: seq<byte>): (g: Option<seq<byte>>)
    ensures g.Some? ==> |g.value| < |buf|
    decreases |buf|, 1
  {
    if buf == [] then None
    else if buf[0] == BREAK then Some(buf[1..])
    else
      match SkipItem(buf)
      case None => None
      case Some(rest) => SkipToBreak(rest)
  }

  lemma IndefHead(major: nat, arg: u64)
    requires major < 8 && major != 4
    ensures Head(major, arg)[0] != INDEF_ARRAY && Head(major, arg)[0] / 32 == major
  {
  }

  lemma SkipUint(v: u64, rest: seq<byte>)
    ensures SkipItem(Uint(v) + rest) == Some(rest)
  {
    HeadRoundTrip(UINT, v, rest);
    IndefHead(UINT, v);
  }

  lemma SkipText(major: nat, s: seq<byte>, rest: seq<byte>)
    requires (major == BSTR || major == TSTR) && |s| < U64_LIMIT
    ensures SkipItem(Text(major, s) + rest) == Some(rest)
  {
    HeadRoundTrip(major, |s|, s + rest);
    IndefHead(major, |s|);
    assert Text(major, s) + rest == Head(major, |s|) + (s + rest);
    assert (s + rest)[|s|..] == rest;
  }

  /** An array head is followed by as many items as it announces. */
  lemma SkipArray(n: u64, body: seq<byte>)
    ensures SkipItem(Head(ARRAY, n) + body) == SkipItems(body, n)
  {
    HeadRoundTrip(ARRAY, n, body);
    assert Head(ARRAY, n)[0] != INDEF_ARRAY;
  }

  // ---- Encoders ----

  /** The n low octets of v at pos, most significant first. */
  method PutBigEndian(v: nat, n: nat, out: array<byte>, pos: nat)
    requires pos + n <= out.Length
    modifies out
    ensures out[..pos + n] == old(out[..pos]) + BigEndian(v, n)
  {
    ghost var head := out[..pos];
    var x := v;
    ghost var done: seq<byte> := [];
    assert BigEndian(x, n) + done == BigEndian(v, n);
    for i := 0 to n
      invariant out[..pos] == head && |done| == i && out[pos + n - i..pos + n] == done
      invariant BigEndian(x, n - i) + done == BigEndian(v, n)
    {
      BigEndianStep(x, n - i, done);
      out[pos + n - i - 1] := x % 256;
      done := [x % 256] + done;
      x := x / 256;
    }
    assert done == BigEndian(v, n);
  }

  lemma BigEndianStep(x: nat, n: nat, done: seq<byte>)
    requires n > 0
    ensures BigEndian(x, n) + done == BigEndian(x / 256, n - 1) + ([x % 256] + done)
  {
  }

  /** A head at pos; -1 when it does not fit. */
  method PutHead(major: nat, arg: u64, out: array<byte>, pos: nat) returns (n: int)
    requires major < 8 && pos <= out.Length
    modifies out
    ensures n == if pos + |Head(major, arg)| <= out.Length then |Head(major, arg)| else -1
    ensures n >= 0 ==> out[..pos + n] == old(out[..pos]) + Head(major, arg)
  {
    if arg <= 23 {
      n := PutSized(major, arg, 0, arg, out, pos);
    } else if arg <= 0xFF {
      n := PutSized(major, 24, 1, arg, out, pos);
    } else if arg <= 0xFFFF {
      n := PutSized(major, 25, 2, arg, out, pos);
    } else if arg <= 0xFFFF_FFFF {
      n := PutSized(major, 26, 4, arg, out, pos);
    } else {
      n := PutSized(major, 27, 8, arg, out, pos);
    }
  }

  /** A first octet and an argument of w octets. */
  method PutSized(major: nat, info: nat, w: nat, arg: u64, out: array<byte>, pos: nat) returns (n: int)
    requires major < 8 && info == Info(arg) && w == Width(arg) && pos <= out.Length
    modifies out
    ensures n == if pos + |Head(major, arg)| <= out.Length then |Head(major, arg)| else -1
    ensures n >= 0 ==> out[..pos + n] == old(out[..pos]) + Head(major, arg)
  {
    hide BigEndian;
    if out.Length - pos < 1 + w {
      return -1;
    }
    ghost var head := out[..pos];
    out[pos] := major * 32 + info;
    PutBigEndian(arg, w, out, pos + 1);
    assert out[..pos + 1 + w] == head + [major * 32 + info] + BigEndian(arg, w);
    n := 1 + w;
  }

  method PutUint(v: u64, out: array<byte>, pos: nat) returns (n: int)
    requires pos <= out.Length
    modifies out
    ensures n == if pos + |Uint(v)| <= out.Length then |Uint(v)| else -1
    ensures n >= 0 ==> out[..pos + n] == old(out[..pos]) + Uint(v)
  {
    n := PutHead(UINT, v, out, pos);
  }

  method PutArray(count: u64, out: array<byte>, pos: nat) returns (n: int)
    requires pos <= out.Length
    modifies out
    ensures n == if pos + |Head(ARRAY, count)| <= out.Length then |Head(ARRAY, count)| else -1
    ensures n >= 0 ==> out[..pos + n] == old(out[..pos]) + Head(ARRAY, count)
  {
    n := PutHead(ARRAY, count, out, pos);
  }

  /** A definite-length byte or text string: head, then octets. */
  method PutText(major: nat, s: seq<byte>, out: array<byte>, pos: nat) returns (n: int)
    requires major < 8 && |s| < U64_LIMIT && pos <= out.Length
    modifies out
    ensures n == if pos + |Text(major, s)| <= out.Length then |Text(major, s)| else -1
    ensures n >= 0 ==> out[..pos + n] == old(out[..pos]) + Text(major, s)
  {
    n := PutHead(major, |s|, out, pos);
    if n < 0 {
      return;
    }
    if pos + n + |s| > out.Length {
      return -1;
    }
    ghost var before := old(out[..pos]);
    PutOctets(s, out, pos + n);
    Assoc(before, Head(major, |s|), s);
    n := n + |s|;
  }

  method PutOctets(s: seq<byte>, out: array<byte>, pos: nat)
    requires pos + |s| <= out.Length
    modifies out
    ensures out[..pos + |s|] == old(out[..pos]) + s
  {
    forall i | 0 <= i < |s| {
      out[pos + i] := s[i];
    }
  }

  /** The start of an indefinite-length array, or a break. */
  method PutMark(mark: byte, out: array<byte>, pos: nat) returns (n: int)
    requires pos <= out.Length
    modifies out
    ensures n == if pos < out.Length then 1 else -1
    ensures n >= 0 ==> out[..pos + n] == old(out[..pos]) + [mark]
  {
    if out.Length - pos < 1 {
      return -1;
    }
    out[pos] := mark;
    n := 1;
  }
}
