/** The byte-string codecs of structured/serializers/strings.py: fixed
  * length, length-prefixed, terminator-delimited and .NET-prefixed strings,
  * and the text wrapper that runs an encoder and a decoder around any of
  * them.  Each codec's `size` is the value returned with its call. */
module Strings {
  import opened Outcomes
  import opened Values
  import opened ByteOrders
  import opened PyStruct
  import opened Structs
  import opened Codecs
  import Compounds
  import Semantics

  // ---- fixed-length strings ----

  /** `_single_char`, the format `'s'`. */
  const SingleChar: StructSer := StructSer([Item(None, 's')], Default)

  /** `static_char_serializer(count)`: `_single_char @ count`. */
  function StaticChar(count: Factor): (r: Result<StructSer>)
  {
    MulImpl(SingleChar, count, true)
  }

  /** One string field of `n` bytes, `'{n}s'`. */
  function Field(n: nat, bo: ByteOrder): StructSer
  {
    StructSer([Item(Some(n), 's')], bo)
  }

  lemma {:induction false} FieldLayout(n: nat, bo: ByteOrder)
    ensures Expand(Field(n, bo).fmt) == [Str(n)]
    ensures StructSize(Field(n, bo)) == n && StructNumValues(Field(n, bo)) == 1
  {
    var us := Expand(Field(n, bo).fmt);
    ExpandSingle(Item(Some(n), 's'));
    assert us == [Str(n)] && us[1..] == [];
    assert UnitsSize(us) == Width(us[0]) + UnitsSize(us[1..]);
    assert UnitsValues(us) == 1 + UnitsValues(us[1..]);
  }

  /** `static_char_serializer(n)` is the single field `'{n}s'` (written `'s'`
    * for one byte); a count below one is refused. */
  lemma {:induction false} StaticCharField(n: int)
    ensures n <= 0 ==> StaticChar(IntFactor(n)) == Err(ValueError)
    ensures n >= 1 ==> (StaticChar(IntFactor(n))
      == Ok(StructSer([Item(if n == 1 then None else Some(n), 's')], Default)))
    ensures n >= 1 ==> Expand(StaticChar(IntFactor(n)).value.fmt) == [Str(n)]
  {
    if n >= 2 {
      StaticCharLong(n);
    } else if n == 1 {
      assert SingleChar.fmt[1..] == [];
    }
  }

  lemma {:induction false} StaticCharLong(n: nat)
    requires n >= 2
    ensures StaticChar(IntFactor(n)) == Ok(Field(n, Default))
    ensures Expand(Field(n, Default).fmt) == [Str(n)]
  {
    StringMatmul(None, n);
    assert Count(Item(None, 's')) * n == n by {
      assert Count(Item(None, 's')) == 1;
    }
    assert StaticChar(IntFactor(n)) == Ok(StructSer(Repeated(SingleChar.fmt, n, true), Default));
    FieldLayout(n, Default);
  }

  /** A `'{n}s'` field packs a bytes value cut or zero-padded to `n` bytes. */
  lemma {:induction false} FieldPack(n: nat, bo: ByteOrder, raw: seq<byte>)
    ensures StructPack(Field(n, bo), [Bytes(raw)]) == Ok(Packed(Truncate(raw, n), n))
  {
    FieldLayout(n, bo);
    var us := Expand(Field(n, bo).fmt);
    assert us[1..] == [] && [Bytes(raw)][1..] == [];
    assert PackUnits(bo, us, [Bytes(raw)]) == ThenBytes(PackUnit(bo, Str(n), Bytes(raw)), Ok([]));
    assert Truncate(raw, n) + [] == Truncate(raw, n);
  }

  /** A `'{n}s'` field reads the first `n` bytes of a long enough buffer. */
  lemma {:induction false} FieldUnpack(n: nat, bo: ByteOrder, bs: seq<byte>)
    requires n <= |bs|
    ensures StructUnpack(Field(n, bo), bs) == Ok(Unpacked([Bytes(bs[..n])], n))
  {
    FieldLayout(n, bo);
    var us := Expand(Field(n, bo).fmt);
    var x := bs[..n];
    assert us[1..] == [];
    assert x[..n] == x && x[n..] == [];
    assert UnpackFirstUnit(bo, us, x) == UnpackField(bo, us[0], x) + UnpackUnits(bo, [], []);
    assert UnpackUnits(bo, us, x) == [Bytes(x)];
    assert PyStruct.Unpack(bo, Field(n, bo).fmt, x) == Ok([Bytes(x)]);
  }

  // ---- length prefixes ----

  /** A count serializer: one unsigned integer field, what the `uint*` types
    * hand to the length-prefixed codecs. */
  predicate CountField(st: StructSer)
  {
    |Expand(st.fmt)| == 1 && Expand(st.fmt)[0].Unsigned?
  }

  function CountWidth(st: StructSer): nat
    requires CountField(st)
  {
    Expand(st.fmt)[0].width
  }

  lemma {:induction false} CountFieldSizes(st: StructSer)
    requires CountField(st)
    ensures StructSize(st) == CountWidth(st) && StructNumValues(st) == 1
  {
    var us := Expand(st.fmt);
    assert us[1..] == [];
    assert UnitsSize(us) == Width(us[0]) + UnitsSize(us[1..]);
    assert UnitsValues(us) == 1 + UnitsValues(us[1..]);
  }

  /** Packing a length: its `w` bytes in the count field's byte order, or a
    * `struct.error` when it does not fit. */
  lemma {:induction false} CountFieldPack(st: StructSer, n: nat)
    requires CountField(st)
    ensures StructPack(st, [Int(n)])
      == if n < Pow256(CountWidth(st))
         then Ok(Packed(EncodeUnsigned(st.byteOrder, n, CountWidth(st)), CountWidth(st)))
         else Err(StructError)
  {
    CountFieldSizes(st);
    var us := Expand(st.fmt);
    assert us[1..] == [] && [Int(n)][1..] == [];
    assert PackUnits(st.byteOrder, us, [Int(n)])
      == ThenBytes(PackUnit(st.byteOrder, us[0], Int(n)), Ok([]));
    if n < Pow256(CountWidth(st)) {
      var e := EncodeUnsigned(st.byteOrder, n, CountWidth(st));
      assert e + [] == e;
    }
  }

  /** Unpacking a length reads the unsigned integer in the first `w` bytes. */
  lemma {:induction false} CountFieldUnpack(st: StructSer, bs: seq<byte>)
    requires CountField(st) && StructSize(st) <= |bs|
    ensures StructUnpack(st, bs)
      == Ok(Unpacked([Int(DecodeUnsigned(st.byteOrder, bs[..StructSize(st)]))], StructSize(st)))
  {
    CountFieldSizes(st);
    var us := Expand(st.fmt);
    var w := CountWidth(st);
    var x := bs[..w];
    var v := Int(DecodeUnsigned(st.byteOrder, x));
    assert us[1..] == [];
    assert x[..w] == x && x[w..] == [];
    assert UnpackFirstUnit(st.byteOrder, us, x) == UnpackField(st.byteOrder, us[0], x) + UnpackUnits(st.byteOrder, [], []);
    assert UnpackUnits(st.byteOrder, us, x) == [v];
    assert PyStruct.Unpack(st.byteOrder, st.fmt, x) == Ok([v]);
  }

  /** `count_serializer.unpack(buffer)[0]`. */
  function ReadCount(st: StructSer, bs: seq<byte>): (r: Result<nat>)
    requires CountField(st)
    ensures r.Ok? <==> StructSize(st) <= |bs|
    ensures r.Err? ==> r.error == StructError
    ensures r.Ok? ==> (r.value < Pow256(CountWidth(st))
      && StructUnpack(st, bs) == Ok(Unpacked([Int(r.value)], StructSize(st))))
  {
    var u := StructUnpack(st, bs);
    if u.Err? then Err(StructError)
    else
      CountFieldUnpack(st, bs);
      CountFieldSizes(st);
      Ok(u.value.values[0].i)
  }

  /** `count_serializer.unpack_from(buffer, offset)[0]`. */
  function ReadCountFrom(st: StructSer, bs: seq<byte>, off: nat): (r: Result<nat>)
    requires CountField(st)
    ensures r.Ok? <==> off + StructSize(st) <= |bs|
    ensures r.Err? ==> r.error == StructError
    ensures r.Ok? ==> r == ReadCount(st, bs[off..])
  {
    var u := StructUnpackFrom(st, bs, off);
    if u.Err? then Err(StructError)
    else
      CountFieldUnpack(st, bs[off..]);
      Ok(u.value.values[0].i)
  }

  /** The struct `_st_count_data` builds as written, `self.st + _single_char @
    * count`: refused for an empty string (`@ 0`) and, through `+`, for a
    * count serializer with an explicit byte order. */
  function PrefixedAsWritten(prefix: StructSer, count: nat): (r: Result<StructSer>)
  {
    var s := StaticChar(IntFactor(count));
    if s.Err? then Err(s.error) else StructAdd(prefix, s.value)
  }

  /** The struct the length-prefixed codecs pack with: the prefix's fields,
    * then one `count`-byte string field (`'0s'` for an empty string), in the
    * prefix's byte order. */
  function Prefixed(prefix: StructSer, count: nat): (r: StructSer)
    ensures Semantics.Joins(r, prefix, Field(count, prefix.byteOrder))
  {
    ExpandAppend(prefix.fmt, [Item(Some(count), 's')]);
    StructSer(prefix.fmt + [Item(Some(count), 's')], prefix.byteOrder)
  }

  /** As written, an empty string cannot be packed. */
  lemma {:induction false} PrefixedAsWrittenEmpty(prefix: StructSer)
    ensures PrefixedAsWritten(prefix, 0) == Err(ValueError)
  {
    StaticCharField(0);
  }

  /** As written, a count serializer with an explicit byte order cannot
    * pack any non-empty string, because `_single_char` keeps the default
    * order and `+` refuses to mix orders. */
  lemma {:induction false} PrefixedAsWrittenByteOrder(prefix: StructSer, count: nat)
    requires prefix.byteOrder != Default && count >= 1
    ensures PrefixedAsWritten(prefix, count) == Err(ValueError)
  {
    StaticCharField(count);
  }

  /** Wherever the source's struct exists, it has the fields and byte order
    * of `Prefixed`, so it packs and unpacks alike. */
  lemma {:induction false} PrefixedAgrees(prefix: StructSer, count: nat)
    requires prefix.byteOrder == Default && count >= 1
    ensures PrefixedAsWritten(prefix, count).Ok?
    ensures PrefixedAsWritten(prefix, count).value.byteOrder == Prefixed(prefix, count).byteOrder
    ensures Expand(PrefixedAsWritten(prefix, count).value.fmt) == Expand(Prefixed(prefix, count).fmt)
  {
    StaticCharField(count);
    var s := StaticChar(IntFactor(count)).value;
    ExpandAppend(prefix.fmt, s.fmt);
    FieldLayout(count, Default);
  }

  /** A prefixed struct packs the count's bytes followed by the string's. */
  lemma {:induction false} PrefixedPack(prefix: StructSer, mark: nat, raw: seq<byte>)
    requires CountField(prefix)
    ensures StructPack(Prefixed(prefix, |raw|), [Int(mark), Bytes(raw)])
      == if mark < Pow256(CountWidth(prefix))
         then Ok(Packed(EncodeUnsigned(prefix.byteOrder, mark, CountWidth(prefix)) + raw,
                        CountWidth(prefix) + |raw|))
         else Err(StructError)
  {
    var f := Field(|raw|, prefix.byteOrder);
    CountFieldSizes(prefix);
    FieldLayout(|raw|, prefix.byteOrder);
    assert [Int(mark), Bytes(raw)] == [Int(mark)] + [Bytes(raw)];
    Semantics.StructPackJoin(Prefixed(prefix, |raw|), prefix, f, [Int(mark)], [Bytes(raw)]);
    CountFieldPack(prefix, mark);
    FieldPack(|raw|, prefix.byteOrder, raw);
    assert Truncate(raw, |raw|) == raw;
  }

  // ---- DynamicCharSerializer ----

  /** `DynamicCharSerializer(count_serializer)`. */
  datatype DynamicChar = DynamicChar(st: StructSer)

  /** `with_byte_order`: a new serializer over the re-ordered count struct. */
  function DynamicCharWithByteOrder(d: DynamicChar, bo: ByteOrder): (r: DynamicChar)
    ensures r.st.fmt == d.st.fmt && r.st.byteOrder == bo
    ensures CountField(d.st) ==> CountField(r.st)
  {
    DynamicChar(StructWithByteOrder(d.st, bo))
  }

  /** `pack`: `len(raw)` in the count field, then `raw`, through the struct
    * `_st_count_data` builds. */
  function DynamicCharPack(d: DynamicChar, vs: seq<Value>): (r: Result<Packed>)
    ensures |vs| == 0 ==> r == Err(IndexError)
  {
    if |vs| == 0 then Err(IndexError)
    else
      var raw := Elements(vs[0]);
      if raw.Err? then Err(raw.error)
      else StructPack(Prefixed(d.st, |raw.value|), [Int(|raw.value|), vs[0]])
  }

  /** `unpack`: read the count, then slice out that many bytes after the
    * prefix; `size` is prefix plus count even when the buffer is short. */
  function DynamicCharUnpack(d: DynamicChar, bs: seq<byte>): (r: Result<Unpacked>)
    requires CountField(d.st)
  {
    var count := ReadCount(d.st, bs);
    if count.Err? then Err(count.error)
    else
      var size := StructSize(d.st) + count.value;
      Ok(Unpacked([Bytes(Slice(bs, StructSize(d.st), size))], size))
  }

  /** `unpack_from` as written: `_single_char @ count` refuses a zero count,
    * so an empty string cannot be read at an offset. */
  function DynamicCharUnpackFromAsWritten(d: DynamicChar, bs: seq<byte>, off: nat): (r: Result<Unpacked>)
    requires CountField(d.st)
  {
    var count := ReadCountFrom(d.st, bs, off);
    if count.Err? then Err(count.error)
    else
      var st := StaticChar(IntFactor(count.value));
      if st.Err? then Err(st.error)
      else
        var u := StructUnpackFrom(st.value, bs, off + StructSize(d.st));
        if u.Err? then Err(u.error) else Ok(Unpacked(u.value.values, StructSize(d.st) + count.value))
  }

  /** `unpack_from` with the string read as `'{count}s'`. */
  function DynamicCharUnpackFrom(d: DynamicChar, bs: seq<byte>, off: nat): (r: Result<Unpacked>)
    requires CountField(d.st)
  {
    var count := ReadCountFrom(d.st, bs, off);
    if count.Err? then Err(count.error)
    else
      var u := StructUnpackFrom(Field(count.value, Default), bs, off + StructSize(d.st));
      if u.Err? then Err(u.error) else Ok(Unpacked(u.value.values, StructSize(d.st) + count.value))
  }

  function DynamicCharCodec(d: DynamicChar): Codec
    requires CountField(d.st)
  {
    Codec(1,
      (obj: Value, vs: seq<Value>) => DynamicCharPack(d, vs),
      (obj: Value, bs: seq<byte>) => DynamicCharUnpack(d, bs),
      (obj: Value, bs: seq<byte>, off: nat) => DynamicCharUnpackFrom(d, bs, off))
  }

  /** The packed layout: the length in the count field, then the bytes; a
    * string too long for the count field is a `struct.error`. */
  lemma {:induction false} DynamicCharPackLayout(d: DynamicChar, raw: seq<byte>, more: seq<Value>)
    requires CountField(d.st)
    ensures DynamicCharPack(d, [Bytes(raw)] + more)
      == if |raw| < Pow256(CountWidth(d.st))
         then Ok(Packed(EncodeUnsigned(d.st.byteOrder, |raw|, CountWidth(d.st)) + raw,
                        CountWidth(d.st) + |raw|))
         else Err(StructError)
  {
    var vs := [Bytes(raw)] + more;
    assert vs[0] == Bytes(raw);
    PrefixedPack(d.st, |raw|, raw);
  }

  /** What `pack` wrote reads back as the same bytes, whatever follows it,
    * and both calls leave the same `size`: prefix width plus length. */
  lemma {:induction false} DynamicCharRoundTrip(d: DynamicChar, raw: seq<byte>, rest: seq<byte>)
    requires CountField(d.st) && |raw| < Pow256(CountWidth(d.st))
    ensures DynamicCharPack(d, [Bytes(raw)]).Ok?
    ensures DynamicCharPack(d, [Bytes(raw)]).value.size == CountWidth(d.st) + |raw|
    ensures DynamicCharUnpack(d, DynamicCharPack(d, [Bytes(raw)]).value.data + rest)
      == Ok(Unpacked([Bytes(raw)], DynamicCharPack(d, [Bytes(raw)]).value.size))
  {
    DynamicCharPackLayout(d, raw, []);
    assert [Bytes(raw)] + [] == [Bytes(raw)];
    DynamicCharReads(d, EncodeUnsigned(d.st.byteOrder, |raw|, CountWidth(d.st)), raw, rest);
  }

  /** `unpack` of a count's bytes, the string and anything after it. */
  lemma {:induction false} DynamicCharReads(d: DynamicChar, head: seq<byte>, raw: seq<byte>, rest: seq<byte>)
    requires CountField(d.st) && |raw| < Pow256(CountWidth(d.st))
    requires head == EncodeUnsigned(d.st.byteOrder, |raw|, CountWidth(d.st))
    ensures DynamicCharUnpack(d, head + raw + rest) == Ok(Unpacked([Bytes(raw)], CountWidth(d.st) + |raw|))
  {
    CountFieldSizes(d.st);
    assert head + raw + rest == head + (raw + rest);
    PrefixReadsCount(d.st, |raw|, raw + rest);
    SliceAfterPrefix(head, raw, rest);
  }

  /** Reading back a length packed in front of other bytes. */
  lemma {:induction false} PrefixReadsCount(st: StructSer, n: nat, tail: seq<byte>)
    requires CountField(st) && n < Pow256(CountWidth(st))
    ensures ReadCount(st, EncodeUnsigned(st.byteOrder, n, CountWidth(st)) + tail) == Ok(n)
  {
    var head := EncodeUnsigned(st.byteOrder, n, CountWidth(st));
    CountFieldSizes(st);
    CountFieldUnpack(st, head + tail);
    assert (head + tail)[..StructSize(st)] == head;
    UnsignedRoundTrip(st.byteOrder, n, CountWidth(st));
  }

  /** The bytes between a prefix and what follows a string. */
  lemma {:induction false} SliceAfterPrefix(head: seq<byte>, raw: seq<byte>, rest: seq<byte>)
    ensures Slice(head + (raw + rest), |head|, |head| + |raw|) == raw
  {
    SliceIsSubsequence(head + (raw + rest), |head|, |head| + |raw|);
    assert (head + (raw + rest))[|head|..|head| + |raw|] == raw;
  }

  /** At an offset, the string packed after any prefix bytes reads back too. */
  lemma {:induction false} DynamicCharRoundTripFrom(d: DynamicChar, pre: seq<byte>, raw: seq<byte>, rest: seq<byte>)
    requires CountField(d.st) && |raw| < Pow256(CountWidth(d.st))
    ensures DynamicCharPack(d, [Bytes(raw)]).Ok?
    ensures DynamicCharUnpackFrom(d, pre + DynamicCharPack(d, [Bytes(raw)]).value.data + rest, |pre|)
      == Ok(Unpacked([Bytes(raw)], DynamicCharPack(d, [Bytes(raw)]).value.size))
  {
    DynamicCharPackLayout(d, raw, []);
    assert [Bytes(raw)] + [] == [Bytes(raw)];
    var w := CountWidth(d.st);
    var head := EncodeUnsigned(d.st.byteOrder, |raw|, w);
    var bs := pre + (head + raw) + rest;
    assert DynamicCharPack(d, [Bytes(raw)]).value.data == head + raw;
    CountFieldSizes(d.st);
    assert bs[|pre|..] == head + (raw + rest);
    PrefixReadsCount(d.st, |raw|, raw + rest);
    assert bs[|pre| + w..] == raw + rest;
    FieldUnpack(|raw|, Default, raw + rest);
    assert (raw + rest)[..|raw|] == raw;
  }

  /** As written, one field of a `uint8` count reads the empty string
    * `b'\x00'` at offset 0 but refuses it; the corrected read gives `b''`. */
  lemma {:induction false} EmptyStringUnpackFrom(d: DynamicChar)
    requires d.st == StructSer([Item(None, 'B')], Default)
    ensures CountField(d.st)
    ensures DynamicCharUnpackFromAsWritten(d, [0], 0) == Err(ValueError)
    ensures DynamicCharUnpackFrom(d, [0], 0) == Ok(Unpacked([Bytes([])], 1))
  {
    assert d.st.fmt[1..] == [];
    assert Expand(d.st.fmt) == [Unsigned(1)];
    CountFieldSizes(d.st);
    CountFieldUnpack(d.st, [0]);
    assert [0][..1] == [0];
    assert DecodeUnsigned(Default, [0]) == 0;
    StaticCharField(0);
    FieldUnpack(0, Default, [0][1..]);
  }

  // ---- TerminatedCharSerializer ----

  /** `TerminatedCharSerializer(terminator)` once constructed. */
  datatype Terminated = Terminated(terminator: byte)

  /** The constructor: the terminator must be exactly one byte. */
  function NewTerminated(terminator: seq<byte>): (r: Result<Terminated>)
    ensures r.Ok? <==> |terminator| == 1
    ensures r.Ok? ==> r.value.terminator == terminator[0]
    ensures r.Err? ==> r.error == ValueError
  {
    if |terminator| != 1 then Err(ValueError) else Ok(Terminated(terminator[0]))
  }

  /** `_st_data` as written: the test `raw_data[-1] != self.terminator`
    * compares an int with a one-byte `bytes`, which is never equal, so the
    * terminator is appended to every string. */
  function TerminatedDataAsWritten(t: Terminated, raw: seq<byte>): (r: seq<byte>)
  {
    raw + [t.terminator]
  }

  /** `_st_data` as evidently meant: the terminator is appended unless the
    * string already ends with it. */
  function TerminatedData(t: Terminated, raw: seq<byte>): (r: seq<byte>)
    ensures |r| >= 1 && r[|r| - 1] == t.terminator
    ensures r == raw || r == raw + [t.terminator]
    ensures r == raw <==> (raw != [] && raw[|raw| - 1] == t.terminator)
  {
    if raw == [] || raw[|raw| - 1] != t.terminator then raw + [t.terminator] else raw
  }

  /** `pack`: the terminated bytes through `_single_char @ len(data)`.  A
    * list is extended with the terminator's value and refused by the struct
    * module; anything else that is not `bytes` cannot take `+=`. */
  function TerminatedPackWith(data: (Terminated, seq<byte>) -> seq<byte>, t: Terminated, vs: seq<Value>): (r: Result<Packed>)
    ensures |vs| == 0 ==> r == Err(IndexError)
  {
    if |vs| == 0 then Err(IndexError)
    else if vs[0].List? then Err(StructError)
    else if !vs[0].Bytes? then Err(TypeError)
    else
      var bs := data(t, vs[0].data);
      var st := StaticChar(IntFactor(|bs|));
      if st.Err? then Err(st.error) else StructPack(st.value, [Bytes(bs)])
  }

  function TerminatedPackAsWritten(t: Terminated, vs: seq<Value>): (r: Result<Packed>)
  {
    TerminatedPackWith(TerminatedDataAsWritten, t, vs)
  }

  function TerminatedPack(t: Terminated, vs: seq<Value>): (r: Result<Packed>)
  {
    TerminatedPackWith(TerminatedData, t, vs)
  }

  /** Packing bytes writes exactly the terminated data, and `size` is its
    * length. */
  lemma {:induction false} TerminatedPackLayout(t: Terminated, raw: seq<byte>)
    ensures TerminatedPack(t, [Bytes(raw)]) == Ok(Packed(TerminatedData(t, raw), |TerminatedData(t, raw)|))
    ensures TerminatedPackAsWritten(t, [Bytes(raw)]) == Ok(Packed(raw + [t.terminator], |raw| + 1))
  {
    PackWithLayout(TerminatedData, t, raw);
    PackWithLayout(TerminatedDataAsWritten, t, raw);
  }

  lemma {:induction false} PackWithLayout(data: (Terminated, seq<byte>) -> seq<byte>, t: Terminated, raw: seq<byte>)
    requires |data(t, raw)| >= 1
    ensures TerminatedPackWith(data, t, [Bytes(raw)]) == Ok(Packed(data(t, raw), |data(t, raw)|))
  {
    var d := data(t, raw);
    StaticCharSameAsField(|d|, [Bytes(d)]);
    FieldPack(|d|, Default, d);
    assert Truncate(d, |d|) == d;
  }

  /** `static_char_serializer(n)` packs as the field `'{n}s'` does. */
  lemma {:induction false} StaticCharSameAsField(n: nat, vs: seq<Value>)
    requires n >= 1
    ensures StaticChar(IntFactor(n)).Ok?
    ensures StructPack(StaticChar(IntFactor(n)).value, vs) == StructPack(Field(n, Default), vs)
  {
    StaticCharField(n);
    FieldLayout(n, Default);
  }

  /** The first index at or after `i` that holds the terminator. */
  function FindTerminator(bs: seq<byte>, t: byte, i: nat): (r: Option<nat>)
    ensures r.Some? ==> (i <= r.value < |bs| && bs[r.value] == t
      && forall k :: i <= k < r.value ==> bs[k] != t)
    ensures r.None? ==> forall k :: i <= k < |bs| ==> bs[k] != t
    decreases |bs| - i
  {
    if i >= |bs| then None
    else if bs[i] == t then Some(i)
    else FindTerminator(bs, t, i + 1)
  }

  /** The scan of `unpack_from`: step `end` from `offset` until it reaches
    * the terminator; running off the end is the `IndexError` the source
    * turns into a ValueError. */
  method ScanTerminator(bs: seq<byte>, t: byte, offset: nat) returns (r: Option<nat>)
    ensures r == FindTerminator(bs, t, offset)
  {
    var end := offset;
    while end < |bs| && bs[end] != t
      invariant offset <= end
      invariant end <= |bs| || end == offset
      invariant FindTerminator(bs, t, end) == FindTerminator(bs, t, offset)
      decreases |bs| - end
    {
      end := end + 1;
    }
    if end < |bs| {
      return Some(end);
    }
    return None;
  }

  /** `unpack_from` as written: `size` is `end + 1` with `end` an index into
    * the whole buffer, so after a non-zero offset it counts the bytes before
    * the offset too. */
  function TerminatedUnpackFromAsWritten(t: Terminated, bs: seq<byte>, off: nat): (r: Result<Unpacked>)
  {
    var end := FindTerminator(bs, t.terminator, off);
    if end.None? then Err(ValueError)
    else Ok(Unpacked([Bytes(bs[off..end.value])], end.value + 1))
  }

  /** `unpack_from` with `size` the bytes it consumed: the string and its
    * terminator. */
  function TerminatedUnpackFrom(t: Terminated, bs: seq<byte>, off: nat): (r: Result<Unpacked>)
    ensures r.Err? <==> forall k :: off <= k < |bs| ==> bs[k] != t.terminator
    ensures r.Err? ==> r.error == ValueError
    ensures r.Ok? ==> (r.value.size >= 1 && off + r.value.size <= |bs|
      && bs[off + r.value.size - 1] == t.terminator
      && r.value.values == [Bytes(bs[off..off + r.value.size - 1])]
      && forall k :: off <= k < off + r.value.size - 1 ==> bs[k] != t.terminator)
  {
    var end := FindTerminator(bs, t.terminator, off);
    if end.None? then Err(ValueError)
    else Ok(Unpacked([Bytes(bs[off..end.value])], end.value + 1 - off))
  }

  /** `unpack` is `unpack_from` at offset 0, where the two agree. */
  function TerminatedUnpack(t: Terminated, bs: seq<byte>): (r: Result<Unpacked>)
    ensures r == TerminatedUnpackFromAsWritten(t, bs, 0)
  {
    TerminatedUnpackFrom(t, bs, 0)
  }

  function TerminatedCodec(t: Terminated): Codec
  {
    Codec(1,
      (obj: Value, vs: seq<Value>) => TerminatedPack(t, vs),
      (obj: Value, bs: seq<byte>) => TerminatedUnpack(t, bs),
      (obj: Value, bs: seq<byte>, off: nat) => TerminatedUnpackFrom(t, bs, off))
  }

  /** A string holding the terminator at most as its last byte. */
  predicate TerminatorFree(t: Terminated, raw: seq<byte>)
  {
    forall k :: 0 <= k < |raw| - 1 ==> raw[k] != t.terminator
  }

  /** The string `unpack` gives back: the data without its terminator. */
  function Unterminated(t: Terminated, raw: seq<byte>): (r: seq<byte>)
    ensures TerminatedData(t, raw) == r + [t.terminator]
  {
    if raw != [] && raw[|raw| - 1] == t.terminator then raw[..|raw| - 1] else raw
  }

  /** Whatever precedes and follows it, a packed string reads back as the
    * string without its terminator, and `unpack_from` consumes exactly the
    * bytes `pack` wrote. */
  lemma {:induction false} TerminatedRoundTrip(t: Terminated, pre: seq<byte>, raw: seq<byte>, rest: seq<byte>)
    requires TerminatorFree(t, raw)
    ensures TerminatedPack(t, [Bytes(raw)]).Ok?
    ensures TerminatedUnpackFrom(t, pre + TerminatedPack(t, [Bytes(raw)]).value.data + rest, |pre|)
      == Ok(Unpacked([Bytes(Unterminated(t, raw))], TerminatedPack(t, [Bytes(raw)]).value.size))
  {
    hide *;
    TerminatedPackLayout(t, raw);
    var u := Unterminated(t, raw);
    UnterminatedFree(t, raw);
    var p := TerminatedPack(t, [Bytes(raw)]);
    assert p.value.data == u + [t.terminator] && p.value.size == |u| + 1;
    TerminatedReads(t, pre, u, rest);
  }

  /** What is left once the terminator is taken off holds no terminator. */
  lemma {:induction false} UnterminatedFree(t: Terminated, raw: seq<byte>)
    requires TerminatorFree(t, raw)
    ensures forall k :: 0 <= k < |Unterminated(t, raw)| ==> Unterminated(t, raw)[k] != t.terminator
  {
    var u := Unterminated(t, raw);
    forall k | 0 <= k < |u|
      ensures u[k] != t.terminator
    {
      assert u[k] == raw[k];
    }
  }

  /** `unpack_from` of a terminator-free string, its terminator and anything
    * after it. */
  lemma {:induction false} TerminatedReads(t: Terminated, pre: seq<byte>, u: seq<byte>, rest: seq<byte>)
    requires forall k :: 0 <= k < |u| ==> u[k] != t.terminator
    ensures TerminatedUnpackFrom(t, pre + (u + [t.terminator]) + rest, |pre|)
      == Ok(Unpacked([Bytes(u)], |u| + 1))
  {
    var bs := pre + (u + [t.terminator]) + rest;
    assert bs[|pre|..|pre| + |u|] == u;
    ScanPastString(bs, t.terminator, |pre|, u);
  }

  /** The scan from the start of a terminator-free run stops just past it. */
  lemma {:induction false} ScanPastString(bs: seq<byte>, t: byte, off: nat, u: seq<byte>)
    requires off + |u| < |bs| && bs[off + |u|] == t
    requires forall k :: 0 <= k < |u| ==> u[k] != t
    requires bs[off..off + |u|] == u
    ensures FindTerminator(bs, t, off) == Some(off + |u|)
  {
  }

  /** As written, packing `b'ab\x00'` with terminator `b'\x00'` writes four
    * bytes, and reading them back stops after three, leaving the doubled
    * terminator for the next field; the corrected pack writes three. */
  lemma {:induction false} DoubledTerminator()
    ensures TerminatedPackAsWritten(Terminated(0), [Bytes([97, 98, 0])]) == Ok(Packed([97, 98, 0, 0], 4))
    ensures TerminatedUnpack(Terminated(0), [97, 98, 0, 0]) == Ok(Unpacked([Bytes([97, 98])], 3))
    ensures TerminatedPack(Terminated(0), [Bytes([97, 98, 0])]) == Ok(Packed([97, 98, 0], 3))
  {
    TerminatedPackLayout(Terminated(0), [97, 98, 0]);
    assert [97, 98, 0] + [0] == [97, 98, 0, 0];
    var bs: seq<byte> := [97, 98, 0, 0];
    ScanPastString(bs, 0, 0, [97, 98]);
    assert bs[0..2] == [97, 98];
  }

  /** As written, a string read at offset 1 reports a `size` one larger than
    * the bytes it consumed. */
  lemma {:induction false} AbsoluteEnd()
    ensures TerminatedUnpackFromAsWritten(Terminated(0), [7, 97, 0], 1) == Ok(Unpacked([Bytes([97])], 3))
    ensures TerminatedUnpackFrom(Terminated(0), [7, 97, 0], 1) == Ok(Unpacked([Bytes([97])], 2))
  {
    var bs: seq<byte> := [7, 97, 0];
    ScanPastString(bs, 0, 1, [97]);
    assert bs[1..2] == [97];
  }

  // ---- NETCharSerializer ----

  /** `short_len` and `long_len`, one- and two-byte unsigned counts in the
    * default byte order. */
  const ShortLen: StructSer := StructSer([Item(None, 'B')], Default)
  const LongLen: StructSer := StructSer([Item(None, 'H')], Default)

  lemma {:induction false} NetLengthFields()
    ensures CountField(ShortLen) && CountWidth(ShortLen) == 1 && StructSize(ShortLen) == 1
    ensures CountField(LongLen) && CountWidth(LongLen) == 2 && StructSize(LongLen) == 2
  {
    ExpandSingle(Item(None, 'B'));
    ExpandSingle(Item(None, 'H'));
    assert [Unsigned(1)] == Repeat(Unsigned(1), 1);
    assert [Unsigned(2)] == Repeat(Unsigned(2), 1);
    CountFieldSizes(ShortLen);
    CountFieldSizes(LongLen);
  }

  /** The two-byte length marker `0x80 | count & 0x7F | (count & 0xFF80) << 1`.
    * `count & 0x7F` keeps bits 0-6, `count & 0xFF80` bits 7-15, and the three
    * operands of `|` share no bit, so `|` adds them. */
  function NetMarker(count: nat): nat
  {
    0x80 + count % 0x80 + 2 * (0x80 * ((count / 0x80) % 0x200))
  }

  /** `_decode_length`: `count & 0x7F | (count >> 1) & 0xFF80`, refused above
    * 0x7FFF; again the two operands of `|` share no bit. */
  function DecodeLength(count: nat): (r: Result<nat>)
    ensures r.Err? ==> r.error == ValueError
  {
    var n := count % 0x80 + 0x80 * ((count / 2 / 0x80) % 0x200);
    if n > 0x7FFF then Err(ValueError) else Ok(n)
  }

  /** `_decode_length` inverts the marker on every length that takes one,
    * and the marker's first (low) byte has its top bit set, which is what
    * sends `unpack` to the two-byte path. */
  lemma {:induction false} NetMarkerRoundTrip(n: nat)
    requires 0x80 <= n <= 0x7FFF
    ensures NetMarker(n) < 0x10000
    ensures DecodeLength(NetMarker(n)) == Ok(n)
    ensures NetMarker(n) % 0x100 >= 0x80
  {
    var lo, q := n % 0x80, n / 0x80;
    assert n == 0x80 * q + lo;
    assert q < 0x100 && q % 0x200 == q;
    var m := NetMarker(n);
    assert m == 0x80 + lo + 0x100 * q;
    assert m % 0x80 == lo;
    assert m / 2 == 0x40 + lo / 2 + 0x80 * q;
    assert m / 2 / 0x80 == q;
    assert m % 0x100 == 0x80 + lo;
  }

  /** No two-byte marker decodes to a length above 0x7FFF, so the ValueError
    * of `_decode_length` is never raised on what `unpack` reads. */
  lemma {:induction false} DecodeLengthNeverRefuses(m: nat)
    requires m < 0x10000
    ensures DecodeLength(m).Ok?
  {
    assert m / 2 / 0x80 < 0x100;
  }

  /** `_st_count_data`'s choice of prefix and the count value it writes. */
  function NetLength(count: nat): (r: Result<(StructSer, nat)>)
    ensures r.Err? <==> count > 0x7FFF
    ensures r.Err? ==> r.error == ValueError
    ensures count < 0x80 ==> r == Ok((ShortLen, count))
    ensures 0x80 <= count <= 0x7FFF ==> r == Ok((LongLen, NetMarker(count)))
  {
    if count < 0x80 then Ok((ShortLen, count))
    else if count > 0x7FFF then Err(ValueError)
    else Ok((LongLen, NetMarker(count)))
  }

  /** `pack`: the length (or its marker) in the chosen prefix, then the bytes. */
  function NetPack(vs: seq<Value>): (r: Result<Packed>)
    ensures |vs| == 0 ==> r == Err(IndexError)
  {
    if |vs| == 0 then Err(IndexError)
    else
      var raw := Elements(vs[0]);
      if raw.Err? then Err(raw.error)
      else
        var len := NetLength(|raw.value|);
        if len.Err? then Err(len.error)
        else StructPack(Prefixed(len.value.0, |raw.value|), [Int(len.value.1), vs[0]])
  }

  /** `pack` as written: the struct is `short_len` or `long_len` plus
    * `_single_char @ count` (strings.py:226-231), which has no struct for an
    * empty string. */
  function NetPackAsWritten(vs: seq<Value>): (r: Result<Packed>)
    ensures |vs| == 0 ==> r == Err(IndexError)
  {
    if |vs| == 0 then Err(IndexError)
    else
      var raw := Elements(vs[0]);
      if raw.Err? then Err(raw.error)
      else
        var len := NetLength(|raw.value|);
        if len.Err? then Err(len.error)
        else
          var st := PrefixedAsWritten(len.value.0, |raw.value|);
          if st.Err? then Err(st.error) else StructPack(st.value, [Int(len.value.1), vs[0]])
  }

  /** As written `pack(b'')` is a ValueError, while the corrected `pack`
    * writes the single count byte 0. */
  lemma {:induction false} NetEmptyAsWritten()
    ensures NetPackAsWritten([Bytes([])]) == Err(ValueError)
    ensures NetPack([Bytes([])]) == Ok(Packed([0], 1))
  {
    NetLengthFields();
    PrefixedAsWrittenEmpty(ShortLen);
    NetPackShort([]);
  }

  /** Every non-empty string packs the same both ways. */
  lemma {:induction false} NetPackAgrees(raw: seq<byte>)
    requires |raw| >= 1
    ensures NetPackAsWritten([Bytes(raw)]) == NetPack([Bytes(raw)])
  {
    if |raw| <= 0x7FFF {
      NetLengthFields();
      var prefix := if |raw| < 0x80 then ShortLen else LongLen;
      PrefixedAgrees(prefix, |raw|);
    }
  }

  /** The prefix width and string length `unpack` reads at the start of `bs`:
    * a first byte of 128 or more means the two-byte marker. */
  function NetCount(bs: seq<byte>): (r: Result<(nat, nat)>)
  {
    NetLengthFields();
    var short := ReadCount(ShortLen, bs);
    if short.Err? then Err(short.error)
    else if short.value >= 0x80 then
      var long := ReadCount(LongLen, bs);
      if long.Err? then Err(long.error)
      else
        var count := DecodeLength(long.value);
        if count.Err? then Err(count.error) else Ok((StructSize(LongLen), count.value))
    else Ok((StructSize(ShortLen), short.value))
  }

  /** `unpack`: `size` is the prefix width plus the length, and the bytes
    * are sliced after the prefix. */
  function NetUnpack(bs: seq<byte>): (r: Result<Unpacked>)
  {
    var c := NetCount(bs);
    if c.Err? then Err(c.error)
    else
      var (size, count) := c.value;
      Ok(Unpacked([Bytes(Slice(bs, size, size + count))], size + count))
  }

  /** The same reads at `offset`, through `unpack_from`. */
  function NetCountFrom(bs: seq<byte>, off: nat): (r: Result<(nat, nat)>)
  {
    NetLengthFields();
    var short := ReadCountFrom(ShortLen, bs, off);
    if short.Err? then Err(short.error)
    else if short.value >= 0x80 then
      var long := ReadCountFrom(LongLen, bs, off);
      if long.Err? then Err(long.error)
      else
        var count := DecodeLength(long.value);
        if count.Err? then Err(count.error) else Ok((StructSize(LongLen), count.value))
    else Ok((StructSize(ShortLen), short.value))
  }

  /** Reading at an offset inside the buffer is reading its suffix. */
  lemma {:induction false} NetCountFromSuffix(bs: seq<byte>, off: nat)
    requires off <= |bs|
    ensures NetCountFrom(bs, off) == NetCount(bs[off..])
  {
    NetLengthFields();
  }

  /** `unpack_from`: the prefix at `offset`, then `'{count}s'` after it. */
  function NetUnpackFrom(bs: seq<byte>, off: nat): (r: Result<Unpacked>)
  {
    var c := NetCountFrom(bs, off);
    if c.Err? then Err(c.error)
    else
      var (size, count) := c.value;
      var u := StructUnpackFrom(Field(count, Default), bs, off + size);
      if u.Err? then Err(u.error) else Ok(Unpacked(u.value.values, size + count))
  }

  function NetCodec(): Codec
  {
    Codec(1,
      (obj: Value, vs: seq<Value>) => NetPack(vs),
      (obj: Value, bs: seq<byte>) => NetUnpack(bs),
      (obj: Value, bs: seq<byte>, off: nat) => NetUnpackFrom(bs, off))
  }

  /** The bytes `pack` writes before the string. */
  function NetPrefix(count: nat): (r: seq<byte>)
    requires count <= 0x7FFF
  {
    if count < 0x80 then [count] else LittleEndianBytes(NetMarker(count), 2)
  }

  /** Below 128 bytes the length is one byte; up to 0x7FFF it is the
    * two-byte marker, least significant byte first; longer strings are
    * refused. */
  lemma {:induction false} NetPackLayout(raw: seq<byte>)
    ensures |raw| > 0x7FFF ==> NetPack([Bytes(raw)]) == Err(ValueError)
    ensures |raw| <= 0x7FFF ==> (NetPack([Bytes(raw)])
      == Ok(Packed(NetPrefix(|raw|) + raw, |NetPrefix(|raw|)| + |raw|)))
    ensures |raw| <= 0x7FFF ==> |NetPrefix(|raw|)| == if |raw| < 0x80 then 1 else 2
  {
    if |raw| < 0x80 {
      NetPackShort(raw);
    } else if |raw| <= 0x7FFF {
      NetPackLong(raw);
    }
  }

  lemma {:induction false} NetPackShort(raw: seq<byte>)
    requires |raw| < 0x80
    ensures NetPack([Bytes(raw)]) == Ok(Packed([|raw|] + raw, 1 + |raw|))
  {
    NetLengthFields();
    var n := |raw|;
    PrefixedPack(ShortLen, n, raw);
    assert Pow256(1) == 256;
    assert LittleEndianBytes(n, 1) == [n % 256] + LittleEndianBytes(n / 256, 0);
    assert n % 256 == n;
    assert EncodeUnsigned(Default, n, 1) == [n];
  }

  lemma {:induction false} NetPackLong(raw: seq<byte>)
    requires 0x80 <= |raw| <= 0x7FFF
    ensures NetPack([Bytes(raw)]) == Ok(Packed(LittleEndianBytes(NetMarker(|raw|), 2) + raw, 2 + |raw|))
  {
    NetLengthFields();
    var n := |raw|;
    NetMarkerRoundTrip(n);
    assert Pow256(2) == 0x10000 by { assert Pow256(1) == 256; }
    PrefixedPack(LongLen, NetMarker(n), raw);
  }

  /** Reading the prefix `pack` wrote gives back its width and the length. */
  lemma {:induction false} NetCountOfPrefix(n: nat, tail: seq<byte>)
    requires n <= 0x7FFF
    ensures NetCount(NetPrefix(n) + tail) == Ok((|NetPrefix(n)|, n))
  {
    NetLengthFields();
    var bs := NetPrefix(n) + tail;
    CountFieldUnpack(ShortLen, bs);
    assert bs[..1] == [bs[0]];
    assert DecodeUnsigned(Default, [bs[0]]) == bs[0] by {
      assert [bs[0]][1..] == [];
    }
    if n >= 0x80 {
      NetMarkerRoundTrip(n);
      var m := NetMarker(n);
      assert bs[0] == m % 256;
      assert Pow256(2) == 0x10000 by { assert Pow256(1) == 256; }
      PrefixReadsCount(LongLen, m, tail);
    }
  }

  /** A packed string reads back unchanged, whatever follows it, and `unpack`
    * consumes what `pack` wrote. */
  lemma {:induction false} NetRoundTrip(raw: seq<byte>, rest: seq<byte>)
    requires |raw| <= 0x7FFF
    ensures NetPack([Bytes(raw)]).Ok?
    ensures NetUnpack(NetPack([Bytes(raw)]).value.data + rest)
      == Ok(Unpacked([Bytes(raw)], NetPack([Bytes(raw)]).value.size))
  {
    NetPackLayout(raw);
    var head := NetPrefix(|raw|);
    assert head + raw + rest == head + (raw + rest);
    NetCountOfPrefix(|raw|, raw + rest);
    SliceAfterPrefix(head, raw, rest);
  }

  /** The same at an offset, after any bytes. */
  lemma {:induction false} NetRoundTripFrom(pre: seq<byte>, raw: seq<byte>, rest: seq<byte>)
    requires |raw| <= 0x7FFF
    ensures NetPack([Bytes(raw)]).Ok?
    ensures NetUnpackFrom(pre + NetPack([Bytes(raw)]).value.data + rest, |pre|)
      == Ok(Unpacked([Bytes(raw)], NetPack([Bytes(raw)]).value.size))
  {
    hide *;
    NetPackLayout(raw);
    NetReadsAt(pre, NetPrefix(|raw|), raw, rest);
  }

  /** `unpack_from` at the end of `pre` of a prefix `pack` wrote, its string
    * and anything after them. */
  lemma {:induction false} NetReadsAt(pre: seq<byte>, head: seq<byte>, raw: seq<byte>, rest: seq<byte>)
    requires |raw| <= 0x7FFF && head == NetPrefix(|raw|)
    ensures NetUnpackFrom(pre + (head + raw) + rest, |pre|) == Ok(Unpacked([Bytes(raw)], |head| + |raw|))
  {
    var bs := pre + (head + raw) + rest;
    assert bs[|pre|..] == head + (raw + rest);
    NetCountFromSuffix(bs, |pre|);
    NetCountOfPrefix(|raw|, raw + rest);
    NetStringAt(bs, |pre| + |head|, raw, rest);
  }

  /** The string field after the prefix reads the packed bytes. */
  lemma {:induction false} NetStringAt(bs: seq<byte>, at: nat, raw: seq<byte>, rest: seq<byte>)
    requires at <= |bs| && bs[at..] == raw + rest
    ensures StructUnpackFrom(Field(|raw|, Default), bs, at) == Ok(Unpacked([Bytes(raw)], |raw|))
  {
    FieldLayout(|raw|, Default);
    FieldUnpack(|raw|, Default, raw + rest);
    assert (raw + rest)[..|raw|] == raw;
  }

  // ---- UnicodeSerializer ----

  /** The encoder and decoder of a text field (`str.encode` and
    * `bytes.decode` under a codec name, or an `EncoderDecoder`'s methods):
    * foreign code, so parameters here. */
  datatype TextCoding = TextCoding(encode: Value -> Result<Value>, decode: Value -> Result<string>)

  /** `str.rstrip('\0')`. */
  function RStripNul(s: string): (r: string)
    ensures |r| <= |s| && r == s[..|r|]
    ensures forall k :: |r| <= k < |s| ==> s[k] == '\0'
    ensures r == [] || r[|r| - 1] != '\0'
  {
    if s != [] && s[|s| - 1] == '\0' then RStripNul(s[..|s| - 1]) else s
  }

  /** Trailing NULs, however many, are all that `rstrip` removes. */
  lemma {:induction false} RStripNulPadding(s: string, k: nat)
    requires s == [] || s[|s| - 1] != '\0'
    ensures RStripNul(s + Repeat('\0', k)) == s
  {
    if k > 0 {
      var p := s + Repeat('\0', k);
      RepeatAt('\0', k);
      RepeatAt('\0', k - 1);
      assert p[..|p| - 1] == s + Repeat('\0', k - 1);
      RStripNulPadding(s, k - 1);
    } else {
      assert s + Repeat('\0', 0) == s;
    }
  }

  /** `pack`: the inner codec packs `encoder(value)`. */
  function UnicodePack(c: Codec, tc: TextCoding, obj: Value, vs: seq<Value>): (r: Result<Packed>)
  {
    if |vs| == 0 then Err(IndexError)
    else
      var e := tc.encode(vs[0]);
      if e.Err? then Err(e.error) else PackWith(c, obj, [e.value])
  }

  /** The text for what the inner codec read: decoded, right-stripped of
    * NULs; `size` is the inner codec's. */
  function Decoded(tc: TextCoding, u: Result<Unpacked>): (r: Result<Unpacked>)
    ensures r.Ok? ==> (u.Ok? && r.value.size == u.value.size && |r.value.values| == 1)
  {
    if u.Err? then Err(u.error)
    else if |u.value.values| == 0 then Err(IndexError)
    else
      var d := tc.decode(u.value.values[0]);
      if d.Err? then Err(d.error) else Ok(Unpacked([Text(RStripNul(d.value))], u.value.size))
  }

  function UnicodeUnpack(c: Codec, tc: TextCoding, obj: Value, bs: seq<byte>): (r: Result<Unpacked>)
  {
    Decoded(tc, UnpackWith(c, obj, bs))
  }

  function UnicodeUnpackFrom(c: Codec, tc: TextCoding, obj: Value, bs: seq<byte>, off: nat): (r: Result<Unpacked>)
  {
    Decoded(tc, UnpackFromWith(c, obj, bs, off))
  }

  function UnicodeCodec(c: Codec, tc: TextCoding): Codec
  {
    Codec(1,
      (obj: Value, vs: seq<Value>) => UnicodePack(c, tc, obj, vs),
      (obj: Value, bs: seq<byte>) => UnicodeUnpack(c, tc, obj, bs),
      (obj: Value, bs: seq<byte>, off: nat) => UnicodeUnpackFrom(c, tc, obj, bs, off))
  }

  /** Text in a fixed-length field: the encoded text is zero-padded to the
    * field, and when the decoder turns that padding into NULs the text reads
    * back unchanged, with the field's size. */
  lemma {:induction false} UnicodeStaticRoundTrip(n: nat, tc: TextCoding, obj: Value, s: string, b: seq<byte>, rest: seq<byte>)
    requires n >= 1 && |b| <= n
    requires tc.encode(Text(s)) == Ok(Bytes(b))
    requires tc.decode(Bytes(b + Zeros(n - |b|))) == Ok(s + Repeat('\0', n - |b|))
    requires s == [] || s[|s| - 1] != '\0'
    ensures StaticChar(IntFactor(n)).Ok?
    ensures UnicodePack(StructCodec(StaticChar(IntFactor(n)).value), tc, obj, [Text(s)])
      == Ok(Packed(b + Zeros(n - |b|), n))
    ensures UnicodeUnpack(StructCodec(StaticChar(IntFactor(n)).value), tc, obj, b + Zeros(n - |b|) + rest)
      == Ok(Unpacked([Text(s)], n))
  {
    StaticCharWrites(n, b);
    StaticCharReads(n, b + Zeros(n - |b|), rest);
    RStripNulPadding(s, n - |b|);
  }

  /** A fixed-length field zero-pads a shorter string. */
  lemma {:induction false} StaticCharWrites(n: nat, b: seq<byte>)
    requires n >= 1 && |b| <= n
    ensures StaticChar(IntFactor(n)).Ok?
    ensures StructPack(StaticChar(IntFactor(n)).value, [Bytes(b)]) == Ok(Packed(b + Zeros(n - |b|), n))
  {
    StaticCharSameAsField(n, [Bytes(b)]);
    FieldPack(n, Default, b);
    if |b| == n {
      assert b[..n] == b && Zeros(0) == [] && b + [] == b;
    }
  }

  /** A fixed-length field reads its `n` bytes. */
  lemma {:induction false} StaticCharReads(n: nat, x: seq<byte>, rest: seq<byte>)
    requires n >= 1 && |x| == n
    ensures StaticChar(IntFactor(n)).Ok?
    ensures StructUnpack(StaticChar(IntFactor(n)).value, x + rest) == Ok(Unpacked([Bytes(x)], n))
  {
    StaticCharField(n);
    FieldLayout(n, Default);
    FieldUnpack(n, Default, x + rest);
    assert (x + rest)[..n] == x;
  }
}
