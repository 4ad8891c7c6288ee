/** The string types of the second early generation
  * (structured/complex_types/strings.py): `char[...]` and `unicode[...]`
  * choose one of four byte-string serializers by the kind of count they are
  * given, and `unicode_wrap` puts an encoder and decoder around it. */
module EarlyStrings {
  import opened Outcomes
  import opened Values
  import opened ByteOrders
  import opened PyStruct
  import opened Codecs
  import Structs
  import Strings
  import FirstStructured
  import EarlyBaseTypes

  /** The `uint*` types a length prefix may be. */
  datatype UInt = U8 | U16 | U32 | U64

  /** The type's `format` character. */
  function SizeChar(u: UInt): char
  {
    match u
    case U8 => 'B'
    case U16 => 'H'
    case U32 => 'I'
    case U64 => 'Q'
  }

  function SizeWidth(u: UInt): nat
  {
    match u
    case U8 => 1
    case U16 => 2
    case U32 => 4
    case U64 => 8
  }

  /** The count argument of `char[...]` and `unicode[...]`, by the branch it
    * takes (a `TypeVar` is not part of this model). */
  datatype CountArg =
    | IntCount(n: int)
    | UintCount(u: UInt)
    | NetCount
    | TerminatorCount(t: seq<byte>)
    | OtherCount

  /** The serializer class chosen: `'{n}s'`, `_dynamic_char[uint*]`,
    * `_net_char` or `_terminated_char[term]`. */
  datatype StringKind =
    | StaticKind(n: nat)
    | DynamicKind(u: UInt)
    | NetKind
    | TerminatedKind(t: Strings.Terminated)

  /** `char._create` (strings.py:80-99): an int is counted, so it must be
    * positive; a terminator must be a single byte; anything else is refused. */
  function CharCreate(count: CountArg): (r: Result<StringKind>)
    ensures count.IntCount? ==> (r.Ok? <==> count.n > 0)
    ensures count.IntCount? && count.n > 0 ==> r == Ok(StaticKind(count.n))
    ensures count.IntCount? && count.n <= 0 ==> r == Err(ValueError)
    ensures count.UintCount? ==> r == Ok(DynamicKind(count.u))
    ensures count.NetCount? ==> r == Ok(NetKind)
    ensures count.TerminatorCount? ==> (r.Ok? <==> |count.t| == 1)
    ensures count.TerminatorCount? && |count.t| == 1 ==> r == Ok(TerminatedKind(Strings.Terminated(count.t[0])))
    ensures count.TerminatorCount? && |count.t| != 1 ==> r == Err(ValueError)
    ensures count.OtherCount? ==> r == Err(TypeError)
  {
    match count
    case IntCount(n) =>
      var it := FirstStructured.Counted('s', Structs.IntFactor(n));
      if it.Err? then Err(it.error) else Ok(StaticKind(it.value.count.value))
    case UintCount(u) => Ok(DynamicKind(u))
    case NetCount => Ok(NetKind)
    case TerminatorCount(t) =>
      var term := Strings.NewTerminated(t);
      if term.Err? then Err(term.error) else Ok(TerminatedKind(term.value))
    case OtherCount => Err(TypeError)
  }

  /** The `encoding` argument of `unicode[...]`: a codec name (its standard
    * encoder and decoder, which are foreign code and given here as a
    * parameter), an `EncoderDecoder` subclass, or anything else. */
  datatype Encoding =
    | ByName(coding: Strings.TextCoding)
    | ByClass(coding: Strings.TextCoding)
    | OtherEncoding

  /** `unicode._create` (strings.py:165-196): the encoding is checked first;
    * an int count becomes `_static_char[count]`, which takes zero and, for a
    * negative count, fails with a struct error when its format `'{n}s'` is
    * compiled; every other count chooses as `char` does. */
  function UnicodeCreate(count: CountArg, enc: Encoding): (r: Result<(StringKind, Strings.TextCoding)>)
    ensures enc.OtherEncoding? ==> r == Err(TypeError)
    ensures !enc.OtherEncoding? && count.IntCount? ==>
      r == if count.n < 0 then Err(StructError) else Ok((StaticKind(count.n), enc.coding))
    ensures !enc.OtherEncoding? && !count.IntCount? ==>
      (r.Ok? <==> CharCreate(count).Ok?)
      && (r.Ok? ==> r.value == (CharCreate(count).value, enc.coding))
      && (r.Err? ==> r.error == CharCreate(count).error)
  {
    if enc.OtherEncoding? then Err(TypeError)
    else
      match count
      case IntCount(n) => if n < 0 then Err(StructError) else Ok((StaticKind(n), enc.coding))
      case UintCount(u) => Ok((DynamicKind(u), enc.coding))
      case NetCount => Ok((NetKind, enc.coding))
      case TerminatorCount(t) =>
        var term := Strings.NewTerminated(t);
        if term.Err? then Err(term.error) else Ok((TerminatedKind(term.value), enc.coding))
      case OtherCount => Err(TypeError)
  }

  /** A zero length is refused for `char` and taken by `unicode`. */
  lemma {:induction false} ZeroLength(coding: Strings.TextCoding)
    ensures CharCreate(IntCount(0)) == Err(ValueError)
    ensures UnicodeCreate(IntCount(0), ByName(coding)) == Ok((StaticKind(0), coding))
  {
  }

  // ---- the struct a count type needs ----

  /** `struct_cache(fmt, **keywords)`: its parameters are `format` and
    * `actions` (base_types.py:277), so any other keyword is Python's
    * TypeError; it never applies a byte order of its own. */
  function StructCacheCall(bo: ByteOrder, fmt: Format, keywords: set<string>): (r: Result<EarlyBaseTypes.Ser>)
    ensures r.Err? <==> keywords - {"format", "actions"} != {}
    ensures r.Err? ==> r.error == TypeError
    ensures r.Ok? ==> r.value == EarlyBaseTypes.PlainStruct(bo, fmt)
  {
    if keywords - {"format", "actions"} != {} then Err(TypeError)
    else Ok(EarlyBaseTypes.StructCache(bo, fmt, []))
  }

  /** The one-field count struct of a `uint*` type in byte order `bo`. */
  function CountStruct(u: UInt, bo: ByteOrder): (r: Structs.StructSer)
    ensures Strings.CountField(r) && Strings.CountWidth(r) == SizeWidth(u)
    ensures Structs.StructSize(r) == SizeWidth(u) && r.byteOrder == bo
  {
    var r := Structs.StructSer([Item(None, SizeChar(u))], bo);
    Structs.ExpandSingle(Item(None, SizeChar(u)));
    assert [UnitOf(SizeChar(u))] == Repeat(UnitOf(SizeChar(u)), 1);
    Strings.CountFieldSizes(r);
    r
  }

  /** `_dynamic_char.__init__` as written (strings.py:238-242): the count
    * struct is requested with a `byte_order` keyword. */
  function DynamicInitAsWritten(u: UInt, bo: ByteOrder): (r: Result<Strings.DynamicChar>)
  {
    var st := StructCacheCall(bo, [Item(None, SizeChar(u))], {"byte_order"});
    if st.Err? then Err(st.error) else Ok(Strings.DynamicChar(CountStruct(u, bo)))
  }

  /** `_net_char.__init__` as written (strings.py:424-431): both length
    * structs are requested with a `byte_order` keyword. */
  function NetInitAsWritten(bo: ByteOrder): (r: Result<()>)
  {
    var short := StructCacheCall(bo, [Item(None, 'B')], {"byte_order"});
    if short.Err? then Err(short.error)
    else
      var long := StructCacheCall(bo, [Item(None, 'H')], {"byte_order"});
      if long.Err? then Err(long.error) else Ok(())
  }

  /** Neither serializer can be built as written, whatever the byte order,
    * while the count struct meant (the type's format in that byte order) is
    * a well-formed length field. */
  lemma {:induction false} ByteOrderKeywordRefused(u: UInt, bo: ByteOrder)
    ensures DynamicInitAsWritten(u, bo) == Err(TypeError)
    ensures NetInitAsWritten(bo) == Err(TypeError)
    ensures Strings.CountField(NewDynamic(u, bo).st)
  {
    assert "byte_order" in {"byte_order"} - {"format", "actions"};
  }

  /** `_dynamic_char[u]` built in byte order `bo` with the count struct it
    * means to build. */
  function NewDynamic(u: UInt, bo: ByteOrder): (r: Strings.DynamicChar)
    ensures Strings.CountField(r.st) && Strings.CountWidth(r.st) == SizeWidth(u)
    ensures r.st.byteOrder == bo
  {
    Strings.DynamicChar(CountStruct(u, bo))
  }

  // ---- the serializers ----

  /** The serializer of each kind: a static string is the struct `'{n}s'`
    * (`_static_char` ignores the byte order, strings.py:214-216); the other
    * three are the byte-string codecs with the count struct and the
    * terminator handling their code intends.  The .NET kind writes its length
    * marker least significant byte first whatever `bo` is: packed in a
    * big-endian order the marker would be misread (`BigEndianMarkerMisread`). */
  function KindCodec(k: StringKind, bo: ByteOrder): Codec
  {
    match k
    case StaticKind(n) => Structs.StructCodec(Strings.Field(n, Default))
    case DynamicKind(u) => Strings.DynamicCharCodec(NewDynamic(u, bo))
    case NetKind => Strings.NetCodec()
    case TerminatedKind(t) => Strings.TerminatedCodec(t)
  }

  /** The strings each kind holds: exactly `n` bytes, a length the prefix
    * can count, or no terminator before the last byte. */
  predicate Fits(k: StringKind, raw: seq<byte>)
  {
    match k
    case StaticKind(n) => |raw| == n
    case DynamicKind(u) => |raw| < Pow256(SizeWidth(u))
    case NetKind => |raw| <= 0x7FFF
    case TerminatedKind(t) => Strings.TerminatorFree(t, raw)
  }

  /** What a packed string reads back as: itself, or for a terminated string
    * itself without a trailing terminator. */
  function ReadBack(k: StringKind, raw: seq<byte>): (r: seq<byte>)
    ensures !k.TerminatedKind? ==> r == raw
    ensures k.TerminatedKind? ==> Strings.TerminatedData(k.t, raw) == r + [k.t.terminator]
  {
    if k.TerminatedKind? then Strings.Unterminated(k.t, raw) else raw
  }

  /** `c` packs `raw` into `size` bytes that `unpack` reads back as `back`
    * whatever follows them, and `unpack_from` after any bytes, both with the
    * `size` of the pack. */
  ghost predicate RoundTrips(c: Codec, pre: seq<byte>, raw: seq<byte>, back: seq<byte>, rest: seq<byte>)
  {
    var p := PackWith(c, NoneValue, [Bytes(raw)]);
    p.Ok? && |p.value.data| == p.value.size
    && UnpackWith(c, NoneValue, p.value.data + rest) == Ok(Unpacked([Bytes(back)], p.value.size))
    && UnpackFromWith(c, NoneValue, pre + p.value.data + rest, |pre|) == Ok(Unpacked([Bytes(back)], p.value.size))
  }

  /** Every kind reads back the strings it holds. */
  lemma {:induction false} KindRoundTrip(k: StringKind, bo: ByteOrder, pre: seq<byte>, raw: seq<byte>, rest: seq<byte>)
    requires Fits(k, raw)
    ensures RoundTrips(KindCodec(k, bo), pre, raw, ReadBack(k, raw), rest)
  {
    match k
    case StaticKind(n) => StaticRoundTrip(n, pre, raw, rest);
    case DynamicKind(u) => DynamicRoundTrip(NewDynamic(u, bo), pre, raw, rest);
    case NetKind => NetRoundTrip(pre, raw, rest);
    case TerminatedKind(t) => TerminatedRoundTrip(t, pre, raw, rest);
  }

  lemma {:induction false} StaticRoundTrip(n: nat, pre: seq<byte>, raw: seq<byte>, rest: seq<byte>)
    requires |raw| == n
    ensures RoundTrips(Structs.StructCodec(Strings.Field(n, Default)), pre, raw, raw, rest)
  {
    var s := Strings.Field(n, Default);
    Strings.FieldPack(n, Default, raw);
    assert Truncate(raw, n) == raw;
    StaticReads(s, n, raw, rest);
    var bs := pre + raw + rest;
    assert bs[|pre|..] == raw + rest;
  }

  lemma {:induction false} StaticReads(s: Structs.StructSer, n: nat, raw: seq<byte>, rest: seq<byte>)
    requires s == Strings.Field(n, Default) && |raw| == n
    ensures Structs.StructUnpack(s, raw + rest) == Ok(Unpacked([Bytes(raw)], n))
  {
    Strings.FieldUnpack(n, Default, raw + rest);
    assert (raw + rest)[..n] == raw;
  }

  lemma {:induction false} DynamicRoundTrip(d: Strings.DynamicChar, pre: seq<byte>, raw: seq<byte>, rest: seq<byte>)
    requires Strings.CountField(d.st) && |raw| < Pow256(Strings.CountWidth(d.st))
    ensures RoundTrips(Strings.DynamicCharCodec(d), pre, raw, raw, rest)
  {
    Strings.DynamicCharRoundTrip(d, raw, rest);
    Strings.DynamicCharRoundTripFrom(d, pre, raw, rest);
    Strings.DynamicCharPackLayout(d, raw, []);
    assert [Bytes(raw)] + [] == [Bytes(raw)];
  }

  lemma {:induction false} NetRoundTrip(pre: seq<byte>, raw: seq<byte>, rest: seq<byte>)
    requires |raw| <= 0x7FFF
    ensures RoundTrips(Strings.NetCodec(), pre, raw, raw, rest)
  {
    Strings.NetPackLayout(raw);
    Strings.NetRoundTrip(raw, rest);
    Strings.NetRoundTripFrom(pre, raw, rest);
  }

  lemma {:induction false} TerminatedRoundTrip(t: Strings.Terminated, pre: seq<byte>, raw: seq<byte>, rest: seq<byte>)
    requires Strings.TerminatorFree(t, raw)
    ensures RoundTrips(Strings.TerminatedCodec(t), pre, raw, Strings.Unterminated(t, raw), rest)
  {
    var u := Strings.Unterminated(t, raw);
    TerminatedPacks(t, raw);
    Strings.UnterminatedFree(t, raw);
    TerminatedReadsHead(t, u, rest);
    TerminatedReadsAt(t, pre, u, rest);
  }

  lemma {:induction false} TerminatedPacks(t: Strings.Terminated, raw: seq<byte>)
    ensures var d := Strings.Unterminated(t, raw) + [t.terminator];
      PackWith(Strings.TerminatedCodec(t), NoneValue, [Bytes(raw)]) == Ok(Packed(d, |d|))
  {
    Strings.TerminatedPackLayout(t, raw);
  }

  lemma {:induction false} TerminatedReadsAt(t: Strings.Terminated, pre: seq<byte>, u: seq<byte>, rest: seq<byte>)
    requires forall k :: 0 <= k < |u| ==> u[k] != t.terminator
    ensures UnpackFromWith(Strings.TerminatedCodec(t), NoneValue, pre + (u + [t.terminator]) + rest, |pre|)
      == Ok(Unpacked([Bytes(u)], |u| + 1))
  {
    Strings.TerminatedReads(t, pre, u, rest);
  }

  lemma {:induction false} TerminatedReadsHead(t: Strings.Terminated, u: seq<byte>, rest: seq<byte>)
    requires forall k :: 0 <= k < |u| ==> u[k] != t.terminator
    ensures UnpackWith(Strings.TerminatedCodec(t), NoneValue, (u + [t.terminator]) + rest) == Ok(Unpacked([Bytes(u)], |u| + 1))
  {
    Strings.TerminatedReads(t, [], u, rest);
    assert [] + (u + [t.terminator]) + rest == (u + [t.terminator]) + rest;
  }

  /** `unicode_wrap` (strings.py:513-559) over a kind: text whose encoding
    * the kind holds, and which the decoder gives back from what is read,
    * reads back unchanged when it does not end in a NUL (the wrapper strips
    * trailing NULs). */
  lemma {:induction false} UnicodeRoundTrip(k: StringKind, bo: ByteOrder, tc: Strings.TextCoding,
                         pre: seq<byte>, s: string, b: seq<byte>, rest: seq<byte>)
    requires Fits(k, b)
    requires tc.encode(Text(s)) == Ok(Bytes(b))
    requires tc.decode(Bytes(ReadBack(k, b))) == Ok(s)
    requires s == [] || s[|s| - 1] != '\0'
    ensures var c := Strings.UnicodeCodec(KindCodec(k, bo), tc);
      var p := PackWith(c, NoneValue, [Text(s)]);
      p.Ok?
      && UnpackWith(c, NoneValue, p.value.data + rest) == Ok(Unpacked([Text(s)], p.value.size))
      && UnpackFromWith(c, NoneValue, pre + p.value.data + rest, |pre|) == Ok(Unpacked([Text(s)], p.value.size))
  {
    KindRoundTrip(k, bo, pre, b, rest);
    Strings.RStripNulPadding(s, 0);
    assert s + Repeat('\0', 0) == s;
  }

  // ---- the unpackers as written ----

  /** `_dynamic_char.unpack` as written (strings.py:291-299): the count is
    * read with `self.st.unpack(buffer)`, and `struct.unpack` wants the
    * buffer to be exactly the count's width. */
  function DynamicUnpackAsWritten(d: Strings.DynamicChar, bs: seq<byte>): (r: Result<Unpacked>)
    requires Strings.CountField(d.st)
  {
    if |bs| != Structs.StructSize(d.st) then Err(StructError) else Strings.DynamicCharUnpack(d, bs)
  }

  /** So it reads back only an empty string with nothing after it: anything
    * else `pack` wrote is refused, while reading the count from the
    * buffer's first bytes gives the string back. */
  lemma {:induction false} DynamicUnpackAsWrittenRefuses(d: Strings.DynamicChar, raw: seq<byte>, rest: seq<byte>)
    requires Strings.CountField(d.st) && |raw| < Pow256(Strings.CountWidth(d.st))
    ensures Strings.DynamicCharPack(d, [Bytes(raw)]).Ok?
    ensures var p := Strings.DynamicCharPack(d, [Bytes(raw)]).value;
      DynamicUnpackAsWritten(d, p.data + rest)
        == (if raw == [] && rest == [] then Ok(Unpacked([Bytes([])], p.size)) else Err(StructError))
      && Strings.DynamicCharUnpack(d, p.data + rest) == Ok(Unpacked([Bytes(raw)], p.size))
  {
    Strings.DynamicCharRoundTrip(d, raw, rest);
    Strings.DynamicCharPackLayout(d, raw, []);
    assert [Bytes(raw)] + [] == [Bytes(raw)];
    Strings.CountFieldSizes(d.st);
  }

  /** `_net_char.unpack` as written (strings.py:473-482): the first byte is
    * read with `short_len.unpack(buffer)`, which wants exactly one byte, and
    * a two-byte length then with `long_len.unpack(buffer)`, which wants
    * exactly two. */
  function NetUnpackAsWritten(bs: seq<byte>): (r: Result<Unpacked>)
  {
    if |bs| != 1 then Err(StructError)
    else if bs[0] >= 0x80 then Err(StructError)
    else Strings.NetUnpack(bs)
  }

  /** So only the empty string reads back: anything else `pack` wrote is
    * refused, while the prefix read from the buffer's first bytes gives the
    * string back. */
  lemma {:induction false} NetUnpackAsWrittenRefuses(raw: seq<byte>, rest: seq<byte>)
    requires |raw| <= 0x7FFF
    ensures Strings.NetPack([Bytes(raw)]).Ok?
    ensures var p := Strings.NetPack([Bytes(raw)]).value;
      NetUnpackAsWritten(p.data + rest)
        == (if raw == [] && rest == [] then Ok(Unpacked([Bytes([])], 1)) else Err(StructError))
      && Strings.NetUnpack(p.data + rest) == Ok(Unpacked([Bytes(raw)], p.size))
  {
    Strings.NetPackLayout(raw);
    Strings.NetRoundTrip(raw, rest);
  }

  /** The two-byte marker in a big-endian order would start with a byte
    * below 128, which the one-byte probe of both unpackers takes for a
    * short length: the length prefix only works least significant byte
    * first. */
  lemma {:induction false} BigEndianMarkerMisread()
    ensures Strings.NetMarker(0x80) == 0x180
    ensures EncodeUnsigned(BigEndian, Strings.NetMarker(0x80), 2) == [0x01, 0x80]
    ensures EncodeUnsigned(Default, Strings.NetMarker(0x80), 2) == [0x80, 0x01]
  {
    assert LittleEndianBytes(0x180, 2) == [0x80] + LittleEndianBytes(1, 1);
    assert LittleEndianBytes(1, 1) == [1] + LittleEndianBytes(0, 0);
    assert Reverse([0x80, 0x01]) == [0x01, 0x80] by {
      assert [0x80, 0x01][1..] == [0x01];
    }
  }

  /** `_terminated_char._st_data` (strings.py:345-350) compares the last
    * byte, an int, with the one-byte `terminator`, as the current engine's
    * does, so as written it always appends the terminator: `b'ab\x00'` packs
    * to four bytes, where the terminated kind packs three. */
  lemma {:induction false} EarlyDoubledTerminator(bo: ByteOrder)
    ensures Strings.TerminatedPackAsWritten(Strings.Terminated(0), [Bytes([97, 98, 0])])
      == Ok(Packed([97, 98, 0, 0], 4))
    ensures PackWith(KindCodec(TerminatedKind(Strings.Terminated(0)), bo), NoneValue, [Bytes([97, 98, 0])])
      == Ok(Packed([97, 98, 0], 3))
  {
    Strings.DoubledTerminator();
  }

  /** `_terminated_char.unpack_from` (strings.py:375-384): step `size` from
    * the offset until the byte there is the terminator; running off the end
    * is the IndexError turned into a ValueError, and `size` counts the
    * string and its terminator. */
  method ScanUnpackFrom(t: Strings.Terminated, buffer: seq<byte>, offset: nat) returns (r: Result<Unpacked>)
    ensures r == Strings.TerminatedUnpackFrom(t, buffer, offset)
  {
    var size: nat := 0;
    while offset + size < |buffer| && buffer[offset + size] != t.terminator
      invariant offset + size <= |buffer| || size == 0
      invariant forall k :: offset <= k < offset + size ==> buffer[k] != t.terminator
      decreases |buffer| - (offset + size)
    {
      size := size + 1;
    }
    if offset + size >= |buffer| {
      return Err(ValueError);
    }
    Strings.ScanPastString(buffer, t.terminator, offset, buffer[offset..offset + size]);
    return Ok(Unpacked([Bytes(buffer[offset..offset + size])], size + 1));
  }
}
