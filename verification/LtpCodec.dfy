/** The segment encoders and decoders of ltp.c, as cursors over buffers, proved against the format. */
module LtpCodec {
  import opened Bytes
  import opened ClaimMap
  import opened LtpSegment
  import opened Sequences
  import Sdnv

  // ---- Encoders ----

  /** The encoders' run of sdnv_encode calls: field after field from pos, -1 as soon as one does not fit. */
  method PutFields(vs: seq<nat>, out: array<byte>, pos: nat) returns (n: int)
    requires pos <= out.Length
    modifies out
    ensures n == if Encodable(vs) && pos + |FieldsBytes(vs)| <= out.Length then |FieldsBytes(vs)| else -1
    ensures n >= 0 ==> out[..pos + n] == old(out[..pos]) + FieldsBytes(vs)
  {
    var p := pos;
    ghost var before := out[..pos];
    assert out[..p] == before + FieldsBytes([]);
    for i := 0 to |vs|
      invariant pos <= p <= out.Length && p == pos + |FieldsBytes(vs[..i])|
      invariant Encodable(vs[..i])
      invariant out[..p] == before + FieldsBytes(vs[..i])
    {
      PutStep(vs, i);
      var k := Sdnv.SdnvEncode(vs[i], out, p);
      if k < 0 {
        return -1;
      }
      Assoc(before, FieldsBytes(vs[..i]), Sdnv.Encode(vs[i]));
      p := p + k;
    }
    assert vs[..|vs|] == vs;
    n := p - pos;
  }

  lemma PutStep(vs: seq<nat>, i: nat)
    requires i < |vs|
    ensures FieldsBytes(vs[..i + 1]) == FieldsBytes(vs[..i]) + Sdnv.Encode(vs[i])
    ensures |FieldsBytes(vs[..i + 1])| <= |FieldsBytes(vs)|
    ensures Encodable(vs[..i]) && |Sdnv.Encode(vs[i])| <= Sdnv.MAX_BYTES ==> Encodable(vs[..i + 1])
    ensures Encodable(vs) ==> |Sdnv.Encode(vs[i])| <= Sdnv.MAX_BYTES
  {
    assert vs[..i + 1] == vs[..i] + [vs[i]];
    FieldsAppend(vs[..i], [vs[i]]);
    FieldsAppend(vs[..i + 1], vs[i + 1..]);
    assert vs[..i + 1] + vs[i + 1..] == vs;
    assert FieldsBytes([vs[i]]) == Sdnv.Encode(vs[i]) by {
      assert [vs[i]][1..] == [];
      assert Sdnv.Encode(vs[i]) + [] == Sdnv.Encode(vs[i]);
    }
  }

  /** Raw octets at pos. */
  method PutBytes(data: seq<byte>, out: array<byte>, pos: nat) returns (n: int)
    requires pos <= out.Length
    modifies out
    ensures n == if pos + |data| <= out.Length then |data| else -1
    ensures n >= 0 ==> out[..pos + n] == old(out[..pos]) + data
  {
    if pos + |data| > out.Length {
      return -1;
    }
    forall i | 0 <= i < |data| {
      out[pos + i] := data[i];
    }
    n := |data|;
  }

  method EncodeHeader(h: Header, out: array<byte>) returns (n: int)
    modifies out
    ensures n == if Encodable([h.engine, h.session]) && |HeaderBytes(h)| <= out.Length then |HeaderBytes(h)| else -1
    ensures n >= 0 ==> out[..n] == HeaderBytes(h)
  {
    HeaderLength(h, FieldsBytes([h.engine, h.session]));
    if out.Length < 4 {
      return -1;
    }
    n := EncodeIds(TypeOctet(h), [h.engine, h.session], out);
    if n < 0 {
      return -1;
    }
    var k := PutBytes([h.hdrExt, h.trailerExt], out, n);
    if k < 0 {
      return -1;
    }
    n := n + k;
  }

  lemma HeaderLength(h: Header, ids: seq<byte>)
    requires ids == FieldsBytes([h.engine, h.session])
    ensures HeaderBytes(h) == [TypeOctet(h)] + ids + [h.hdrExt, h.trailerExt] && |HeaderBytes(h)| == |ids| + 3 >= 5
  {
    TwoFieldsLength(h.engine, h.session);
  }

  method EncodeIds(octet: byte, ids: seq<nat>, out: array<byte>) returns (n: int)
    requires out.Length >= 1
    modifies out
    ensures n == if Encodable(ids) && 1 + |FieldsBytes(ids)| <= out.Length then 1 + |FieldsBytes(ids)| else -1
    ensures n >= 0 ==> out[..n] == [octet] + FieldsBytes(ids)
  {
    out[0] := octet;
    ghost var first := out[..1];
    assert first == [octet];
    n := PutFields(ids, out, 1);
    if n >= 0 {
      n := 1 + n;
    }
  }

  /** What the four encoders share: the header, then the fields, each where the last one ended. */
  method EncodeFields(s: Segment, out: array<byte>) returns (n: int)
    modifies out
    ensures var size := |HeaderBytes(s.hdr)| + |FieldsBytes(ContentFields(s))|;
            n == if Encodable([s.hdr.engine, s.hdr.session] + ContentFields(s)) && size <= out.Length then size else -1
    ensures n >= 0 ==> out[..n] == HeaderBytes(s.hdr) + FieldsBytes(ContentFields(s))
  {
    EncodableAppend([s.hdr.engine, s.hdr.session], ContentFields(s));
    n := EncodeHeader(s.hdr, out);
    if n < 0 {
      return -1;
    }
    var k := PutFields(ContentFields(s), out, n);
    if k < 0 {
      return -1;
    }
    n := n + k;
  }

  lemma EncodableAppend(vs: seq<nat>, ws: seq<nat>)
    ensures Encodable(vs + ws) <==> Encodable(vs) && Encodable(ws)
  {
    assert forall i :: 0 <= i < |vs| ==> (vs + ws)[i] == vs[i];
    assert forall i :: 0 <= i < |ws| ==> (vs + ws)[|vs| + i] == ws[i];
  }

  method EncodeDataSegment(s: Segment, out: array<byte>) returns (n: int)
    requires s.DataSeg?
    modifies out
    ensures n == if Fits(s, out.Length) then |Wire(s)| else -1
    ensures n >= 0 ==> out[..n] == Wire(s)
  {
    Assoc(HeaderBytes(s.hdr), FieldsBytes(ContentFields(s)), s.payload);
    n := EncodeFields(s, out);
    if n < 0 {
      return -1;
    }
    if |s.payload| > 0 {
      var k := PutBytes(s.payload, out, n);
      if k < 0 {
        return -1;
      }
      n := n + k;
    }
  }

  method EncodeReport(s: Segment, out: array<byte>) returns (n: int)
    requires s.ReportSeg?
    modifies out
    ensures n == if Fits(s, out.Length) then |Wire(s)| else -1
    ensures n >= 0 ==> out[..n] == Wire(s)
  {
    assert Body(s) == FieldsBytes(ContentFields(s));
    n := EncodeFields(s, out);
  }

  method EncodeReportAck(s: Segment, out: array<byte>) returns (n: int)
    requires s.AckSeg?
    modifies out
    ensures n == if Fits(s, out.Length) then |Wire(s)| else -1
    ensures n >= 0 ==> out[..n] == Wire(s)
  {
    assert Body(s) == FieldsBytes(ContentFields(s));
    n := EncodeFields(s, out);
  }

  method EncodeCancel(s: Segment, out: array<byte>) returns (n: int)
    requires s.CancelSeg?
    modifies out
    ensures n == if Fits(s, out.Length) then |Wire(s)| else -1
    ensures n >= 0 ==> out[..n] == Wire(s)
  {
    Assoc(HeaderBytes(s.hdr), FieldsBytes(ContentFields(s)), [s.reason]);
    n := EncodeFields(s, out);
    if n < 0 {
      return -1;
    }
    var k := PutBytes([s.reason], out, n);
    if k < 0 {
      return -1;
    }
    n := n + k;
  }

  // ---- Decoders ----

  /** A run of sdnv_decode calls from pos; next is where the run ends, or -1. */
  method TakeFields(buf: seq<byte>, pos: nat, k: nat) returns (next: int, vs: seq<nat>)
    requires pos <= |buf|
    ensures next < 0 ==> Fields(buf[pos..], k) == None
    ensures next >= 0 ==> next <= |buf| && Fields(buf[pos..], k) == Some(Parsed(vs, buf[next..])) && |vs| == k
  {
    var p: nat := pos;
    vs := [];
    ghost var all := Fields(buf[pos..], k);
    assert all == After([], Fields(buf[pos..], k)) by {
      if all.Some? {
        assert [] + all.value.fields == all.value.fields;
      }
    }
    for i := 0 to k
      invariant p <= |buf| && |vs| == i
      invariant all == After(vs, Fields(buf[p..], k - i))
    {
      var n, v := TakeField(buf, p, k - i, vs);
      if n < 0 {
        return -1, [];
      }
      vs := vs + [v];
      p := n;
    }
    assert vs + [] == vs;
    next := p;
  }

  /** One sdnv_decode call of the run. */
  method TakeField(buf: seq<byte>, p: nat, ghost k: nat, ghost vs: seq<nat>) returns (next: int, v: nat)
    requires p <= |buf| && k > 0
    ensures next < 0 ==> Fields(buf[p..], k) == None
    ensures next >= 0 ==> next <= |buf|
                          && After(vs, Fields(buf[p..], k)) == After(vs + [v], Fields(buf[next..], k - 1))
  {
    hide Fields, After, Sdnv.Decode;
    ghost var tail := buf[p..];
    var n, value := Sdnv.SdnvDecode(buf[p..]);
    if n < 0 {
      NoField(tail, k);
      return -1, 0;
    }
    TakeStep(buf, p, k, n, vs, value);
    return p + n, value;
  }

  lemma NoField(buf: seq<byte>, k: nat)
    requires Sdnv.Decode(buf) == None && k > 0
    ensures Fields(buf, k) == None
  {
  }

  /** The fields already read, put before the ones still to come. */
  ghost function After(vs: seq<nat>, o: Option<Parsed>): Option<Parsed> {
    match o
    case None => None
    case Some(q) => Some(Parsed(vs + q.fields, q.rest))
  }

  lemma TakeStep(buf: seq<byte>, p: nat, k: nat, n: nat, vs: seq<nat>, v: nat)
    requires p <= |buf| && k > 0 && Sdnv.Decode(buf[p..]) == Some(Sdnv.Decoded(v, n))
    ensures p + n <= |buf|
    ensures After(vs, Fields(buf[p..], k)) == After(vs + [v], Fields(buf[p + n..], k - 1))
  {
    Sdnv.DecodeBounds(buf[p..]);
    assert buf[p..][n..] == buf[p + n..];
    AfterStep(vs, v, Fields(buf[p + n..], k - 1));
  }

  lemma AfterStep(vs: seq<nat>, v: nat, o: Option<Parsed>)
    ensures After(vs + [v], o) == After(vs, if o.None? then None else Some(Parsed([v] + o.value.fields, o.value.rest)))
  {
    if o.Some? {
      assert vs + ([v] + o.value.fields) == vs + [v] + o.value.fields;
    }
  }

  /** The common header, the extension skip, and the copy of the body into a 512-octet buffer. */
  method DecodeSegment(buf: seq<byte>) returns (ok: bool, hdr: Header, body: seq<byte>)
    ensures DecodeHeader(buf) == if ok then Some(Framed(hdr, body)) else None
  {
    hdr, body := Header(0, 0, 0, 0, 0, 0), [];
    if |buf| < 4 {
      return false, hdr, body;
    }
    var kind := buf[0] % 16;
    if (kind >= 5 && kind <= 7) || (kind >= 10 && kind <= 11) {
      return false, hdr, body;
    }
    var next, ids := TakeFields(buf, 1, 2);
    if next < 0 {
      return false, hdr, body;
    }
    if next + 2 > |buf| {
      return false, hdr, body;
    }
    var exts := buf[next];
    var trailers := buf[next + 1];
    HeaderSteps(buf, next, ids);
    var start := SkipHeaderExtensions(buf, next + 2, exts);
    if start < 0 {
      return false, hdr, body;
    }
    if |buf| - start > SEGMENT_BUF {
      return false, hdr, body;
    }
    hdr := Header(buf[0] / 16, kind, ids[0], ids[1], exts, trailers);
    body := buf[start..];
    ok := true;
  }

  /** What is left to do once the two identifiers are read. */
  lemma HeaderSteps(buf: seq<byte>, next: nat, ids: seq<nat>)
    requires |buf| >= 4 && !Reserved(buf[0] % 16) && next + 2 <= |buf| && |ids| == 2
    requires Fields(buf[1..], 2) == Some(Parsed(ids, buf[next..]))
    ensures DecodeHeader(buf)
         == match SkipExtensions(buf[next + 2..], buf[next])
            case None => None
            case Some(body) =>
              if |body| > SEGMENT_BUF then None
              else Some(Framed(Header(buf[0] / 16, buf[0] % 16, ids[0], ids[1], buf[next], buf[next + 1]), body))
  {
    assert buf[next..][2..] == buf[next + 2..];
  }

  method SkipHeaderExtensions(buf: seq<byte>, pos: nat, count: nat) returns (next: int)
    requires pos <= |buf|
    ensures next < 0 ==> SkipExtensions(buf[pos..], count) == None
    ensures next >= 0 ==> next <= |buf| && SkipExtensions(buf[pos..], count) == Some(buf[next..])
  {
    next := pos;
    ghost var all := SkipExtensions(buf[pos..], count);
    for i := 0 to count
      invariant 0 <= next <= |buf| && all == SkipExtensions(buf[next..], count - i)
    {
      next := SkipOne(buf, next, count - i);
      if next < 0 {
        return;
      }
    }
  }

  /** One extension: tag, length, and that many octets. */
  method SkipOne(buf: seq<byte>, pos: nat, ghost n: nat) returns (next: int)
    requires pos <= |buf| && n > 0
    ensures next < 0 ==> SkipExtensions(buf[pos..], n) == None
    ensures next >= 0 ==> next <= |buf| && SkipExtensions(buf[pos..], n) == SkipExtensions(buf[next..], n - 1)
  {
    var p, vs := TakeFields(buf, pos, 2);
    if p < 0 {
      return -1;
    }
    SkipStep(buf, pos, p, vs, n);
    if p + vs[1] > |buf| {
      return -1;
    }
    next := p + vs[1];
  }

  lemma SkipStep(buf: seq<byte>, pos: nat, p: nat, vs: seq<nat>, n: nat)
    requires pos <= |buf| && p <= |buf| && n > 0 && |vs| == 2 && Fields(buf[pos..], 2) == Some(Parsed(vs, buf[p..]))
    ensures SkipExtensions(buf[pos..], n)
         == if p + vs[1] > |buf| then None else SkipExtensions(buf[p + vs[1]..], n - 1)
  {
    if p + vs[1] <= |buf| {
      assert buf[p..][vs[1]..] == buf[p + vs[1]..];
    }
  }

  method DecodeDataContent(h: Header, body: seq<byte>) returns (ok: bool, s: Segment)
    ensures DecodeData(h, body) == if ok then Some(s) else None
  {
    s := AckSeg(h, 0);
    var k := if IsCheckpoint(h.kind) then 5 else 3;
    var next, vs := TakeFields(body, 0, k);
    assert body[0..] == body;
    if next < 0 {
      return false, s;
    }
    if |body| - next < vs[2] {
      return false, s;
    }
    assert body[next..][..vs[2]] == body[next..next + vs[2]];
    var cp, rpt := 0, 0;
    if k == 5 {
      cp, rpt := vs[3], vs[4];
    }
    return true, DataSeg(h, vs[0], vs[1], cp, rpt, body[next..next + vs[2]]);
  }

  method DecodeReportContent(h: Header, body: seq<byte>) returns (ok: bool, s: Segment)
    ensures DecodeReport(h, body) == if ok then Some(s) else None
  {
    s := AckSeg(h, 0);
    var next, vs := TakeFields(body, 0, 5);
    assert body[0..] == body;
    if next < 0 {
      return false, s;
    }
    if vs[4] > MAX_CLAIMS {
      return false, s;
    }
    var found, claims := DecodeClaims(body, next, vs[4]);
    ReportStep(h, body, vs, body[next..]);
    if !found {
      return false, s;
    }
    return true, ReportSeg(h, vs[0], vs[1], vs[2], vs[3], claims);
  }

  /** The claims of a report: an offset and a length each. */
  function Claimed(buf: seq<byte>, count: nat): Option<seq<Claim>> {
    match Fields(buf, 2 * count)
    case None => None
    case Some(q) => FieldsCount(buf, 2 * count); Some(ClaimsOf(q.fields))
  }

  method DecodeClaims(body: seq<byte>, pos: nat, count: nat) returns (found: bool, claims: seq<Claim>)
    requires pos <= |body|
    ensures Claimed(body[pos..], count) == if found then Some(claims) else None
  {
    var last, cs := TakeFields(body, pos, 2 * count);
    if last < 0 {
      return false, [];
    }
    return true, ClaimsOf(cs);
  }

  lemma ReportStep(h: Header, body: seq<byte>, vs: seq<nat>, rest: seq<byte>)
    requires |vs| == 5 && Fields(body, 5) == Some(Parsed(vs, rest)) && vs[4] <= MAX_CLAIMS
    ensures DecodeReport(h, body)
         == match Claimed(rest, vs[4])
            case None => None
            case Some(claims) => Some(ReportSeg(h, vs[0], vs[1], vs[2], vs[3], claims))
  {
  }

  method DecodeReportAckContent(h: Header, body: seq<byte>) returns (ok: bool, s: Segment)
    ensures DecodeAck(h, body) == if ok then Some(s) else None
  {
    var next, vs := TakeFields(body, 0, 1);
    assert body[0..] == body;
    if next < 0 {
      return false, AckSeg(h, 0);
    }
    return true, AckSeg(h, vs[0]);
  }

  method DecodeCancelContent(h: Header, body: seq<byte>) returns (ok: bool, s: Segment)
    ensures DecodeCancel(h, body) == if ok then Some(s) else None
  {
    if |body| < 1 {
      return false, AckSeg(h, 0);
    }
    return true, CancelSeg(h, body[0]);
  }
}
