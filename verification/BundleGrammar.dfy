/** Exactly which octet strings decode as which bundle, item by item. */
module BundleGrammar {
  import opened Bytes
  import opened Cbor
  import opened Bundle
  import opened Sequences

  /** A number or array head, or a string with its octets. */
  datatype Item = Number(major: nat, arg: u64) | Octets(major: nat, text: seq<byte>)

  /** What follows the items when the octets start with them, each in any form its head may have. */
  function ReadAll(buf: seq<byte>, items: seq<Item>): Option<seq<byte>>
    decreases |items|
  {
    if items == [] then Some(buf)
    else
      match items[0]
      case Number(major, arg) =>
        var g := TakeNumber(buf, major);
        if g.Got? && g.value == arg then ReadAll(g.rest, items[1..]) else None
      case Octets(major, text) =>
        var g := TakeText(buf, major);
        if g.Got? && g.value == text then ReadAll(g.rest, items[1..]) else None
  }

  lemma {:induction false} ReadAppend(buf: seq<byte>, xs: seq<Item>, ys: seq<Item>)
    ensures ReadAll(buf, xs + ys)
         == match ReadAll(buf, xs) case None => None case Some(rest) => ReadAll(rest, ys)
    decreases |xs|
  {
    hide TakeNumber, TakeText;
    if xs == [] {
      assert [] + ys == ys;
    } else {
      assert (xs + ys)[1..] == xs[1..] + ys;
      match xs[0]
      case Number(major, arg) =>
        if TakeNumber(buf, major).Got? {
          ReadAppend(TakeNumber(buf, major).rest, xs[1..], ys);
        }
      case Octets(major, text) =>
        if TakeText(buf, major).Got? {
          ReadAppend(TakeText(buf, major).rest, xs[1..], ys);
        }
    }
  }

  lemma NumberFirst()
    ensures forall buf: seq<byte>, major: nat, arg: u64, items: seq<Item>
              {:trigger ReadAll(buf, [Number(major, arg)] + items)} ::
              ReadAll(buf, [Number(major, arg)] + items)
              == var g := TakeNumber(buf, major); if g.Got? && g.value == arg then ReadAll(g.rest, items) else None
  {
    hide TakeNumber, TakeText;
    forall buf: seq<byte>, major: nat, arg: u64, items: seq<Item>
      ensures ReadAll(buf, [Number(major, arg)] + items)
           == (var g := TakeNumber(buf, major); if g.Got? && g.value == arg then ReadAll(g.rest, items) else None)
    {
      assert ([Number(major, arg)] + items)[1..] == items;
    }
  }

  lemma LastItem()
    ensures forall buf: seq<byte>, major: nat, arg: u64 {:trigger ReadAll(buf, [Number(major, arg)])} ::
              ReadAll(buf, [Number(major, arg)])
              == var g := TakeNumber(buf, major); if g.Got? && g.value == arg then Some(g.rest) else None
    ensures forall buf: seq<byte>, major: nat, text: seq<byte> {:trigger ReadAll(buf, [Octets(major, text)])} ::
              ReadAll(buf, [Octets(major, text)])
              == var g := TakeText(buf, major); if g.Got? && g.value == text then Some(g.rest) else None
  {
    hide TakeNumber, TakeText;
  }

  // ---- The items of a bundle ----

  /**
   * What a bundle's octets may say that the bundle does not keep: the length of the primary block's array, the CRC
   * type before it is cut to an octet, the CRC, the length of the payload block's array, and its four numbers.
   */
  datatype Unkept = Unkept(count: u64, crcType: u64, crc: seq<byte>, blockCount: u64, a: u64, b: u64, c: u64, d: u64)

  function OpeningItems(count: u64, flags: u64, crcType: u64): seq<Item> {
    [Number(ARRAY, count), Number(UINT, 7), Number(UINT, flags), Number(UINT, crcType)]
  }

  function EidItems(uri: seq<byte>): seq<Item>
    requires HasScheme(uri)
  {
    [Number(ARRAY, 2), Number(UINT, 1), Octets(TSTR, uri[4..])]
  }

  function TimesItems(p: Primary): seq<Item> {
    [Number(ARRAY, 2), Number(UINT, p.time), Number(UINT, p.sequence), Number(UINT, p.lifetime)]
  }

  function FragmentItems(p: Primary): seq<Item> {
    if p.flags % 2 == 1 then [Number(UINT, p.fragmentOffset), Number(UINT, p.totalAdu)] else []
  }

  function CrcItems(u: Unkept): seq<Item> {
    if u.crcType == 1 then [Octets(BSTR, u.crc)] else []
  }

  function PayloadItems(u: Unkept, payload: seq<byte>): seq<Item> {
    [Number(ARRAY, u.blockCount), Number(UINT, u.a), Number(UINT, u.b), Number(UINT, u.c), Number(UINT, u.d),
     Octets(BSTR, payload)]
  }

  predicate Named(p: Primary) {
    HasScheme(p.dst) && HasScheme(p.src) && HasScheme(p.reportTo)
  }

  function PrimaryItems(p: Primary, u: Unkept): seq<Item>
    requires Named(p)
  {
    OpeningItems(u.count, p.flags, u.crcType)
    + (EidItems(p.dst) + (EidItems(p.src) + (EidItems(p.reportTo) + (TimesItems(p) + (FragmentItems(p) + CrcItems(u))))))
  }

  /** Between the brackets, the octets are the items of this bundle, with these values where it keeps none. */
  predicate Spells(buf: seq<byte>, b: Bundle, u: Unkept, rest: seq<byte>) {
    && Named(b.primary) && b.primary.crcType == u.crcType % 256 && u.blockCount >= 5
    && (b.primary.flags % 2 == 0 ==> b.primary.fragmentOffset == b.primary.totalAdu == 0)
    && ReadAll(buf, PrimaryItems(b.primary, u) + PayloadItems(u, b.payload)) == Some([BREAK] + rest)
  }

  // ---- Section by section ----

  lemma OpeningReads(buf: seq<byte>, count: u64, flags: u64, crcType: u64)
    ensures ReadAll(buf, OpeningItems(count, flags, crcType))
         == if TakeArray(buf).Got? && TakeArray(buf).value == count && TakeOpening(buf).Got?
               && TakeOpening(buf).value == (flags, crcType)
            then Some(TakeOpening(buf).rest) else None
  {
    hide TakeNumber, ReadAll;
    NumberFirst();
    LastItem();
    assert OpeningItems(count, flags, crcType)
        == [Number(ARRAY, count)] + ([Number(UINT, 7)] + ([Number(UINT, flags)] + [Number(UINT, crcType)]));
  }

  lemma EidReads(buf: seq<byte>, uri: Uri)
    requires HasScheme(uri)
    ensures ReadAll(buf, EidItems(uri))
         == if TakeEid(buf).Got? && TakeEid(buf).value == uri then Some(TakeEid(buf).rest) else None
  {
    hide TakeNumber, TakeText, ReadAll;
    NumberFirst();
    LastItem();
    assert EidItems(uri) == [Number(ARRAY, 2)] + ([Number(UINT, 1)] + [Octets(TSTR, uri[4..])]);
    assert uri == DTN + uri[4..];
    if TakeEid(buf).Got? {
      assert TakeEid(buf).value[4..] == TakeText(TakeUint(TakeArray(buf).rest).rest, TSTR).value;
    }
  }

  lemma EidNamed(buf: seq<byte>)
    requires TakeEid(buf).Got?
    ensures HasScheme(TakeEid(buf).value)
  {
  }

  lemma TimesRead(buf: seq<byte>, p: Primary)
    ensures ReadAll(buf, TimesItems(p))
         == if TakeTimes(buf).Got? && TakeTimes(buf).value == (p.time, p.sequence, p.lifetime)
            then Some(TakeTimes(buf).rest) else None
  {
    hide TakeNumber, ReadAll;
    NumberFirst();
    LastItem();
    assert TimesItems(p)
        == [Number(ARRAY, 2)] + ([Number(UINT, p.time)] + ([Number(UINT, p.sequence)] + [Number(UINT, p.lifetime)]));
  }

  lemma FragmentReads(buf: seq<byte>, p: Primary)
    requires p.flags % 2 == 0 ==> p.fragmentOffset == p.totalAdu == 0
    ensures var g := TakeFragmentFields(p.flags, buf);
            && ReadAll(buf, FragmentItems(p))
               == if g.Got? && g.value == (p.fragmentOffset, p.totalAdu) then Some(g.rest) else None
  {
    hide TakeNumber;
    NumberFirst();
    LastItem();
    assert p.flags % 2 == 1 ==> FragmentItems(p) == [Number(UINT, p.fragmentOffset)] + [Number(UINT, p.totalAdu)];
  }

  lemma CrcReads(buf: seq<byte>, u: Unkept)
    ensures var g := TakeCrc(u.crcType, buf);
            && ReadAll(buf, CrcItems(u)) == if g.Got? && (u.crcType == 1 ==> g.value == u.crc) then Some(g.rest) else None
  {
    hide TakeText;
  }

  lemma PayloadReads(buf: seq<byte>, u: Unkept, payload: seq<byte>)
    requires u.blockCount >= 5
    ensures ReadAll(buf, PayloadItems(u, payload))
         == if TakeArray(buf).Got? && TakeArray(buf).value == u.blockCount
               && TakeFour(TakeArray(buf).rest).Got? && TakeFour(TakeArray(buf).rest).value == (u.a, u.b, u.c, u.d)
               && TakePayload(buf).Got? && TakePayload(buf).value == payload
            then Some(TakePayload(buf).rest) else None
  {
    hide TakeNumber, TakeText, ReadAll;
    NumberFirst();
    LastItem();
    assert PayloadItems(u, payload)
        == [Number(ARRAY, u.blockCount)] + ([Number(UINT, u.a)] + ([Number(UINT, u.b)] + ([Number(UINT, u.c)]
           + ([Number(UINT, u.d)] + [Octets(BSTR, payload)]))));
  }

  // ---- The whole ----

  /** The primary block in its sections, each read from where the one before it ends. */
  lemma PrimarySections(buf: seq<byte>, p: Primary, u: Unkept)
    requires Named(p)
    ensures ReadAll(buf, PrimaryItems(p, u))
         == match ReadAll(buf, OpeningItems(u.count, p.flags, u.crcType)) case None => None case Some(r1) =>
            match ReadAll(r1, EidItems(p.dst)) case None => None case Some(r2) =>
            match ReadAll(r2, EidItems(p.src)) case None => None case Some(r3) =>
            match ReadAll(r3, EidItems(p.reportTo)) case None => None case Some(r4) =>
            match ReadAll(r4, TimesItems(p)) case None => None case Some(r5) =>
            match ReadAll(r5, FragmentItems(p)) case None => None case Some(r6) => ReadAll(r6, CrcItems(u))
  {
    hide ReadAll, OpeningItems, EidItems, TimesItems, FragmentItems, CrcItems, HasScheme;
    forall b: seq<byte>, xs: seq<Item>, ys: seq<Item>
      ensures ReadAll(b, xs + ys) == match ReadAll(b, xs) case None => None case Some(rest) => ReadAll(rest, ys)
    {
      ReadAppend(b, xs, ys);
    }
  }

  /** What the items that a bundle does not keep have to say for it to be read. */
  predicate Allowed(p: Primary, u: Unkept) {
    Named(p) && p.crcType == u.crcType % 256 && (p.flags % 2 == 0 ==> p.fragmentOffset == p.totalAdu == 0)
  }

  lemma PrimaryRead(buf: seq<byte>, p: Primary, u: Unkept)
    requires Allowed(p, u) && ReadAll(buf, PrimaryItems(p, u)).Some?
    ensures TakePrimary(buf) == Got(p, ReadAll(buf, PrimaryItems(p, u)).value)
  {
    PrimarySections(buf, p, u);
    hide ReadAll, PrimaryItems, OpeningItems, EidItems, TimesItems, FragmentItems, CrcItems, HasScheme;
    hide TakeOpening, TakeEid, TakeTimes, TakeFragmentFields, TakeCrc;
    OpeningReads(buf, u.count, p.flags, u.crcType);
    var r1 := TakeOpening(buf).rest;
    EidReads(r1, p.dst);
    var r2 := TakeEid(r1).rest;
    EidReads(r2, p.src);
    var r3 := TakeEid(r2).rest;
    EidReads(r3, p.reportTo);
    var r4 := TakeEid(r3).rest;
    TimesRead(r4, p);
    var r5 := TakeTimes(r4).rest;
    FragmentReads(r5, p);
    CrcReads(TakeFragmentFields(p.flags, r5).rest, u);
  }

  /** Where the CRC stands in a primary block that is read. */
  function AtCrc(buf: seq<byte>): seq<byte>
    requires TakePrimary(buf).Got?
  {
    var r := TakeTimes(TakeEids(TakeOpening(buf).rest).rest).rest;
    TakeFragmentFields(TakeOpening(buf).value.0, r).rest
  }

  lemma PrimaryFound(buf: seq<byte>, u: Unkept)
    requires TakePrimary(buf).Got?
    requires u.count == TakeArray(buf).value && u.crcType == TakeOpening(buf).value.1
    requires u.crc == TakeCrc(u.crcType, AtCrc(buf)).value
    ensures var p := TakePrimary(buf).value;
            Allowed(p, u) && ReadAll(buf, PrimaryItems(p, u)) == Some(TakePrimary(buf).rest)
  {
    var p := TakePrimary(buf).value;
    NamesFound(buf);
    PrimarySections(buf, p, u);
    hide ReadAll, PrimaryItems, OpeningItems, EidItems, TimesItems, FragmentItems, CrcItems, HasScheme;
    hide TakeEid, TakeTimes, TakeCrc;
    OpeningReads(buf, u.count, p.flags, u.crcType);
    var r1 := TakeOpening(buf).rest;
    EidReads(r1, p.dst);
    var r2 := TakeEid(r1).rest;
    EidReads(r2, p.src);
    var r3 := TakeEid(r2).rest;
    EidReads(r3, p.reportTo);
    var r4 := TakeEid(r3).rest;
    TimesRead(r4, p);
    var r5 := TakeTimes(r4).rest;
    FragmentReads(r5, p);
    CrcReads(TakeFragmentFields(p.flags, r5).rest, u);
  }

  lemma NamesFound(buf: seq<byte>)
    requires TakePrimary(buf).Got?
    ensures Named(TakePrimary(buf).value)
  {
    hide TakeOpening, TakeEid, TakeTimes, TakeFragmentFields, TakeCrc, HasScheme;
    var r1 := TakeOpening(buf).rest;
    EidNamed(r1);
    EidNamed(TakeEid(r1).rest);
    EidNamed(TakeEid(TakeEid(r1).rest).rest);
  }

  /**
   * The decoder accepts the octets as b, with rest left over, iff they are an opening bracket, items that spell b,
   * a closing bracket and rest. So it refuses every other version, array length, scheme number and item type.
   */
  lemma DecodesIff(buf: seq<byte>, b: Bundle, rest: seq<byte>)
    ensures Decode(buf) == Got(b, rest) <==>
            buf != [] && buf[0] == INDEF_ARRAY && exists u: Unkept :: Spells(buf[1..], b, u, rest)
  {
    hide *;
    if Decode(buf) == Got(b, rest) {
      DecodedSpells(buf, b, rest);
    }
    if buf != [] && buf[0] == INDEF_ARRAY && exists u: Unkept :: Spells(buf[1..], b, u, rest) {
      var u: Unkept :| Spells(buf[1..], b, u, rest);
      SpelledDecodes(buf, b, u, rest);
    }
  }

  lemma SpelledDecodes(buf: seq<byte>, b: Bundle, u: Unkept, rest: seq<byte>)
    requires buf != [] && buf[0] == INDEF_ARRAY && Spells(buf[1..], b, u, rest)
    ensures Decode(buf) == Got(b, rest)
  {
    hide ReadAll, PrimaryItems, PayloadItems, TakePrimary, TakePayload, TakeFour, TakeArray, HasScheme;
    ReadAppend(buf[1..], PrimaryItems(b.primary, u), PayloadItems(u, b.payload));
    PrimaryRead(buf[1..], b.primary, u);
    PrimaryGot(buf[1..]);
    PayloadReads(TakePrimary(buf[1..]).rest, u, b.payload);
    assert ([BREAK] + rest)[1..] == rest;
  }

  lemma DecodedSpells(buf: seq<byte>, b: Bundle, rest: seq<byte>)
    requires Decode(buf) == Got(b, rest)
    ensures buf != [] && buf[0] == INDEF_ARRAY && exists u: Unkept :: Spells(buf[1..], b, u, rest)
  {
    hide ReadAll, PrimaryItems, PayloadItems, TakePrimary, TakeOpening, TakeArray, TakeFour, TakeCrc, HasScheme;
    var body := buf[1..];
    var r := TakePrimary(body).rest;
    PrimaryGot(body);
    PayloadGot(r);
    var crcType := TakeOpening(body).value.1;
    var four := TakeFour(TakeArray(r).rest).value;
    var u := Unkept(TakeArray(body).value, crcType, TakeCrc(crcType, AtCrc(body)).value, TakeArray(r).value,
                    four.0, four.1, four.2, four.3);
    PrimaryFound(body, u);
    PayloadReads(r, u, b.payload);
    ReadAppend(body, PrimaryItems(b.primary, u), PayloadItems(u, b.payload));
    var after := TakePayload(r).rest;
    assert after == [BREAK] + rest;
    assert Spells(body, b, u, rest);
  }

  lemma PrimaryGot(buf: seq<byte>)
    requires TakePrimary(buf).Got?
    ensures TakeArray(buf).Got? && TakeOpening(buf).Got? && TakeCrc(TakeOpening(buf).value.1, AtCrc(buf)).Got?
    ensures |buf| >= 2
  {
    hide TakeEids, TakeTimes, TakeFragmentFields, TakeCrc;
  }

  lemma PayloadGot(buf: seq<byte>)
    requires TakePayload(buf).Got?
    ensures TakeArray(buf).Got? && TakeArray(buf).value >= 5 && TakeFour(TakeArray(buf).rest).Got?
  {
    hide TakeFour, TakeText;
  }

  // ---- What the encoder writes ----

  /** An encoding's primary block: nine items, or eleven with the fragment fields, and the CRC of type 1. */
  lemma PrimaryWritten(p: Primary, crc: seq<byte>, rest: seq<byte>)
    requires Encodable(p) && |crc| == 2 && Readable(p.dst) && Readable(p.src)
    ensures var buf := PrimaryFields(p) + ([0x42] + crc) + rest;
            && TakePrimary(buf) == Got(NormalPrimary(p), rest)
            && TakeArray(buf).Got? && TakeArray(buf).value == (if p.flags % 2 == 1 then 11 else 9)
            && TakeOpening(buf).value == (p.flags, 1) && TakeCrc(1, AtCrc(buf)) == Got(crc, rest)
  {
    var o, e, t := Opening(p.flags), Eids(p.src, p.dst), Times(p.time, p.sequence, p.lifetime);
    var f, c := FragmentFields(p.flags, p.fragmentOffset, p.totalAdu), [0x42] + crc;
    var buf := PrimaryFields(p) + c + rest;
    PrimaryRoundTrip(p, crc, rest);
    Five(o, e, t, f, c, rest);
    OpeningCount(p.flags, e + (t + (f + (c + rest))));
    hide Opening, Eids, Times, FragmentFields, TakeOpening, TakeArray, TakeEids, TakeTimes, TakeFragmentFields, TakePrimary,
         TakeCrc, Readable, Normal;
    OpeningRoundTrip(p.flags, e + (t + (f + (c + rest))));
    EidsRoundTrip(p.src, p.dst, t + (f + (c + rest)));
    TimesRoundTrip(p.time, p.sequence, p.lifetime, f + (c + rest));
    FragmentRoundTrip(p.flags, p.fragmentOffset, p.totalAdu, c + rest);
    CrcTaken(crc, rest);
  }

  lemma OpeningCount(flags: u64, rest: seq<byte>)
    ensures var g := TakeArray(Opening(flags) + rest); g.Got? && g.value == if flags % 2 == 1 then 11 else 9
  {
    var n: u64 := if IsFragment(flags) then 11 else 9;
    var more := Uint(VERSION) + (Uint(flags) + Uint(1));
    Assoc4(Head(ARRAY, n), Uint(VERSION), Uint(flags), Uint(1));
    Assoc(Head(ARRAY, n), more, rest);
    ArrayRoundTrip(n, more + rest);
  }

  lemma PayloadWritten(payload: seq<byte>, rest: seq<byte>)
    requires |payload| < U64_LIMIT
    ensures var buf := PayloadBytes(payload) + rest;
            && TakePayload(buf) == Got(payload, rest)
            && TakeArray(buf).Got? && TakeArray(buf).value == 5
            && TakeFour(TakeArray(buf).rest).Got? && TakeFour(TakeArray(buf).rest).value == (1, 1, 0, 0)
  {
    var h, four, t := Head(ARRAY, 5), Uint(1) + Uint(1) + Uint(0) + Uint(0), Text(BSTR, payload);
    PayloadRoundTrip(payload, rest);
    Assoc4(h, four, t, rest);
    ArrayRoundTrip(5, four + (t + rest));
    FourRoundTrip(t + rest);
  }

  /**
   * What an encoding says, item by item: nine or eleven items in the primary block, CRC type 1 and the block's CRC,
   * and a payload block of five items, of type 1, number 1, without flags or a CRC.
   */
  lemma EncodingSpells(p: Primary, payload: seq<byte>, rest: seq<byte>)
    requires Encodable(p) && Readable(p.dst) && Readable(p.src) && |payload| < U64_LIMIT
    ensures var b := PrimaryBytes(p);
            && |b| >= 2
            && Spells((Encode(p, payload) + rest)[1..], Bundle(NormalPrimary(p), payload),
                      Unkept(if p.flags % 2 == 1 then 11 else 9, 1, b[|b| - 2..], 5, 1, 1, 0, 0), rest)
  {
    var b, pay := PrimaryBytes(p), PayloadBytes(payload);
    var crc := b[|b| - 2..];
    assert b == PrimaryFields(p) + ([0x42] + crc) && |crc| == 2;
    hide *;
    Unframed(p, payload, rest);
    var after := pay + ([BREAK] + rest);
    var u := Unkept(if p.flags % 2 == 1 then 11 else 9, 1, crc, 5, 1, 1, 0, 0);
    PrimaryWritten(p, crc, after);
    PrimaryFound(b + after, u);
    PayloadWritten(payload, [BREAK] + rest);
    PayloadReads(after, u, payload);
    SpelledBy(b + after, Bundle(NormalPrimary(p), payload), u, after, rest);
  }

  lemma Unframed(p: Primary, payload: seq<byte>, rest: seq<byte>)
    requires |payload| < U64_LIMIT
    ensures (Encode(p, payload) + rest)[1..] == PrimaryBytes(p) + (PayloadBytes(payload) + ([BREAK] + rest))
  {
    FramedParts(PrimaryBytes(p), PayloadBytes(payload), rest);
  }

  lemma SpelledBy(buf: seq<byte>, b: Bundle, u: Unkept, after: seq<byte>, rest: seq<byte>)
    requires Allowed(b.primary, u) && u.blockCount >= 5
    requires ReadAll(buf, PrimaryItems(b.primary, u)) == Some(after)
    requires ReadAll(after, PayloadItems(u, b.payload)) == Some([BREAK] + rest)
    ensures Spells(buf, b, u, rest)
  {
    ReadAppend(buf, PrimaryItems(b.primary, u), PayloadItems(u, b.payload));
  }
}
