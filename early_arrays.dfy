/** The arrays of the second early generation
  * (structured/complex_types/arrays.py): `array[header, element]` builds one
  * of three serializers — a fixed number of format-type items read as one
  * struct, a length field followed by format-type items, or an array header
  * followed by `Structured` objects, each packed by its own class. */
module EarlyArrays {
  import opened Outcomes
  import opened Values
  import opened ByteOrders
  import opened PyStruct
  import opened Codecs
  import Structs
  import Compounds
  import Semantics
  import Strings
  import Arrays
  import Records
  import EarlySerializers
  import EarlyStrings
  import EarlyHeaders
  import EarlyBaseTypes

  // ---- `array[...]` ----

  /** The first argument of `array[header, element]`: a concrete header
    * class, one of the two abstract bases `HeaderBase` and `Header`, or a
    * value that is not a class at all (an int, a `uint*` alias). */
  datatype Lead = HeaderClass(kind: EarlyHeaders.HeaderKind) | AbstractHeader | LeadArg(arg: EarlyHeaders.HeaderArg)

  /** The element argument once `unwrap_annotated` has run: a struct
    * serializer with its `num_values` (the basic and format types), a
    * `Structured` class, given by how its instances pack and read, or
    * anything else. */
  datatype Element =
    | FormatElement(st: Structs.StructSer, nv: nat)
    | StructuredElement(codec: Codec)
    | OtherElement

  /** The serializer `_create` puts in the annotation. */
  datatype ArrayKind =
    | FormatArrayOf(st: Structs.StructSer, nv: nat)
    | DynamicFormatArrayOf(countType: EarlyStrings.UInt, countOrder: ByteOrder, objSt: Structs.StructSer, objNv: nat)
    | StructuredArrayOf(header: EarlyHeaders.HeaderKind, elem: Codec)

  /** `array._create` (arrays.py:130-169): the header must be a concrete
    * header class; format-type items take no size check, a static length
    * multiplies the item struct and a dynamic one reads the header's
    * `count` type; `Structured` items take any header. */
  function ArrayCreate(header: Lead, element: Element): (r: Result<ArrayKind>)
    ensures !header.HeaderClass? || element.OtherElement? ==> r == Err(TypeError)
    ensures header.HeaderClass? && element.FormatElement? && EarlyHeaders.TwoPass(header.kind) ==> r == Err(TypeError)
    ensures header.HeaderClass? && element.FormatElement? && header.kind.StaticHeader? ==>
      (r.Ok? <==> header.kind.count >= 1)
      && (r.Err? ==> r.error == ValueError)
      && (r.Ok? ==> (r.value.FormatArrayOf?
          && r.value.nv == element.nv * header.kind.count
          && r.value.st.byteOrder == element.st.byteOrder
          && Structs.StructSize(r.value.st) == Structs.StructSize(element.st) * header.kind.count))
    ensures header.HeaderClass? && element.FormatElement? && header.kind.DynamicHeader? ==>
      r == Ok(DynamicFormatArrayOf(header.kind.countType, Default, element.st, element.nv))
    ensures header.HeaderClass? && element.StructuredElement? ==> r == Ok(StructuredArrayOf(header.kind, element.codec))
  {
    if !header.HeaderClass? then Err(TypeError)
    else
      var k := header.kind;
      match element
      case FormatElement(st, nv) =>
        if EarlyHeaders.TwoPass(k) then Err(TypeError)
        else if k.StaticHeader? then
          var m := EarlySerializers.StructMulAsWritten(EarlySerializers.Struct(st, nv), Structs.IntFactor(k.count));
          if m.Err? then Err(m.error) else Ok(FormatArrayOf(m.value.st, m.value.nv))
        else Ok(DynamicFormatArrayOf(k.countType, Default, st, nv))
      case StructuredElement(c) => Ok(StructuredArrayOf(k, c))
      case OtherElement => Err(TypeError)
  }

  /** A leading argument as `Header[...]` receives it. */
  function HeaderArgOf(l: Lead): EarlyHeaders.HeaderArg
  {
    if l.LeadArg? then l.arg else EarlyHeaders.ArgOther
  }

  /** `array.__class_getitem__` (116-128) for the arguments before the
    * element: one of them is taken as the header class itself, several are
    * handed to `Header[...]` first. */
  function ArrayOf(lead: seq<Lead>, element: Element): (r: Result<ArrayKind>)
    ensures |lead| == 0 || |lead| > 2 ==> r == Err(TypeError)
    ensures |lead| == 1 ==> r == ArrayCreate(lead[0], element)
    ensures |lead| == 1 && !lead[0].HeaderClass? ==> r == Err(TypeError)
    ensures |lead| == 2 && EarlyHeaders.HeaderCreate(HeaderArgOf(lead[0]), HeaderArgOf(lead[1])).Err? ==>
      r == Err(EarlyHeaders.HeaderCreate(HeaderArgOf(lead[0]), HeaderArgOf(lead[1])).error)
    ensures |lead| == 2 && EarlyHeaders.HeaderCreate(HeaderArgOf(lead[0]), HeaderArgOf(lead[1])).Ok? ==>
      r == ArrayCreate(HeaderClass(EarlyHeaders.HeaderCreate(HeaderArgOf(lead[0]), HeaderArgOf(lead[1])).value), element)
  {
    if |lead| == 0 then Err(TypeError)
    else if |lead| == 1 then ArrayCreate(lead[0], element)
    else
      var h := EarlyHeaders.HeaderSubscript(seq(|lead|, i requires 0 <= i < |lead| => HeaderArgOf(lead[i])));
      if h.Err? then Err(h.error) else ArrayCreate(HeaderClass(h.value), element)
  }

  /** As written, the shorthand `array[2, uint16]` the class documents
    * (arrays.py:98-100) is refused: with two arguments the first is taken
    * as the header class, and `2` is not a class. */
  lemma {:induction false} ShorthandRefused(e: Element)
    ensures ArrayOf([LeadArg(EarlyHeaders.ArgInt(2))], e) == Err(TypeError)
  {
  }

  /** `__class_getitem__` with the documented shorthand: a single leading
    * argument that is not a class is read as `Header[arg]`. */
  function ArrayOfIntended(lead: seq<Lead>, element: Element): (r: Result<ArrayKind>)
    ensures |lead| != 1 || !lead[0].LeadArg? ==> r == ArrayOf(lead, element)
    ensures |lead| == 1 && lead[0].LeadArg? && EarlyHeaders.HeaderCreate(lead[0].arg, EarlyHeaders.ArgNone).Ok? ==>
      r == ArrayOf([HeaderClass(EarlyHeaders.HeaderCreate(lead[0].arg, EarlyHeaders.ArgNone).value)], element)
  {
    if |lead| == 1 && lead[0].LeadArg? then
      var h := EarlyHeaders.HeaderSubscript([lead[0].arg]);
      if h.Err? then Err(h.error) else ArrayCreate(HeaderClass(h.value), element)
    else ArrayOf(lead, element)
  }

  /** With the shorthand read as documented, `array[2, uint16]` is the
    * static array of two `uint16` that `array[Header[2], uint16]` is. */
  lemma {:induction false} ShorthandIntended(st: Structs.StructSer)
    ensures ArrayOfIntended([LeadArg(EarlyHeaders.ArgInt(2))], FormatElement(st, 1))
      == ArrayOf([HeaderClass(EarlyHeaders.StaticHeader(2))], FormatElement(st, 1))
    ensures ArrayOfIntended([LeadArg(EarlyHeaders.ArgInt(2))], FormatElement(st, 1)).Ok?
  {
  }

  // ---- `_format_array` ----

  /** `_check_arr` (291-303): the first value is the list, of exactly
    * `num_values` items. */
  function CheckedArray(nv: nat, values: seq<Value>): (r: Result<seq<Value>>)
    ensures |values| == 0 ==> r == Err(IndexError)
    ensures r.Ok? <==> |values| > 0 && Elements(values[0]).Ok? && |Elements(values[0]).value| == nv
    ensures |values| > 0 && Elements(values[0]).Err? ==> r == Err(TypeError)
    ensures |values| > 0 && Elements(values[0]).Ok? && |Elements(values[0]).value| != nv ==> r == Err(ValueError)
    ensures r.Ok? ==> r.value == Elements(values[0]).value
  {
    if |values| == 0 then Err(IndexError)
    else
      var arr := Elements(values[0]);
      if arr.Err? then arr
      else if |arr.value| != nv then Err(ValueError)
      else arr
  }

  /** `_format_array.pack` (305-310): the checked list through the
    * multiplied struct. */
  function FormatArrayPack(st: Structs.StructSer, nv: nat, values: seq<Value>): (r: Result<Packed>)
    ensures CheckedArray(nv, values).Err? ==> r == Err(CheckedArray(nv, values).error)
    ensures r.Ok? ==> (CheckedArray(nv, values).Ok?
      && r == Structs.StructPack(st, CheckedArray(nv, values).value)
      && |r.value.data| == Structs.StructSize(st))
  {
    var arr := CheckedArray(nv, values);
    if arr.Err? then Err(arr.error) else Structs.StructPack(st, arr.value)
  }

  /** `_format_array.unpack` (334-340): the struct's values as one list. */
  function FormatArrayUnpack(st: Structs.StructSer, bs: seq<byte>): (r: Result<Unpacked>)
    ensures r.Ok? <==> |bs| >= Structs.StructSize(st)
    ensures r.Ok? ==> (r.value.size == Structs.StructSize(st)
      && r.value.values == [List(Structs.StructUnpack(st, bs).value.values)])
  {
    var u := Structs.StructUnpack(st, bs);
    if u.Err? then Err(u.error) else Ok(Unpacked([List(u.value.values)], u.value.size))
  }

  /** `_format_array.unpack_from` (342-349). */
  function FormatArrayUnpackFrom(st: Structs.StructSer, bs: seq<byte>, off: nat): (r: Result<Unpacked>)
    ensures r.Ok? <==> off + Structs.StructSize(st) <= |bs|
    ensures r.Ok? ==> r == FormatArrayUnpack(st, bs[off..])
  {
    var u := Structs.StructUnpackFrom(st, bs, off);
    if u.Err? then Err(u.error) else Ok(Unpacked([List(u.value.values)], u.value.size))
  }

  /** The static array as one serializer of one value. */
  function FormatArrayCodec(st: Structs.StructSer, nv: nat): (r: Codec)
    ensures r.numValues == 1
  {
    Codec(1,
      (obj: Value, vs: seq<Value>) => FormatArrayPack(st, nv, vs),
      (obj: Value, bs: seq<byte>) => FormatArrayUnpack(st, bs),
      (obj: Value, bs: seq<byte>, off: nat) => FormatArrayUnpackFrom(st, bs, off))
  }

  /** Without a string field in front, folding the copies with strings
    * combined is folding them without. */
  lemma {:induction false} RepeatedPlain(f: Format, n: nat)
    requires n >= 1 && (f == [] || !IsStringChar(f[0].spec))
    ensures EarlySerializers.EarlyRepeated(f, n, true) == EarlySerializers.EarlyRepeated(f, n, false)
  {
    if n > 1 {
      RepeatedPlain(f, n - 1);
      var g := EarlySerializers.EarlyRepeated(f, n - 1, false);
      assert EarlySerializers.EarlyOverlaps(g, f, true) == EarlySerializers.EarlyOverlaps(g, f, false);
    }
  }

  /** For such an item struct, `*` as written is the corrected `*`. */
  lemma {:induction false} MulAgrees(st: Structs.StructSer, nv: nat, n: int)
    requires n >= 1 && (st.fmt == [] || !IsStringChar(st.fmt[0].spec))
    ensures EarlySerializers.StructMulAsWritten(EarlySerializers.Struct(st, nv), Structs.IntFactor(n))
      == EarlySerializers.StructMul(EarlySerializers.Struct(st, nv), Structs.IntFactor(n))
  {
    if n > 1 {
      RepeatedPlain(st.fmt, n);
    }
  }

  /** A static array of `count` items of a consistent item struct that does
    * not start with a string packs the items it is given and reads them
    * back as one list, whatever follows them. */
  lemma {:induction false} FormatArrayRoundTrip(count: nat, st: Structs.StructSer, nv: nat, items: seq<Value>, rest: seq<byte>)
    requires count >= 1 && nv == Structs.StructNumValues(st)
    requires st.fmt == [] || !IsStringChar(st.fmt[0].spec)
    requires CanonicalValues(Structs.Times(Expand(st.fmt), count), items)
    ensures var a := ArrayCreate(HeaderClass(EarlyHeaders.StaticHeader(count)), FormatElement(st, nv));
      a.Ok? && a.value.FormatArrayOf?
      && FormatArrayPack(a.value.st, a.value.nv, [List(items)]).Ok?
      && FormatArrayUnpack(a.value.st, FormatArrayPack(a.value.st, a.value.nv, [List(items)]).value.data + rest)
         == Ok(Unpacked([List(items)], Structs.StructSize(a.value.st)))
  {
    hide PyStruct.Pack, PyStruct.Unpack, PyStruct.PackUnits, PyStruct.UnpackUnits, Structs.StructPack, Structs.StructUnpack;
    var s := EarlySerializers.Struct(st, nv);
    MulAgrees(st, nv, count);
    var m := EarlySerializers.StructMul(s, Structs.IntFactor(count)).value;
    Structs.TimesValues(Expand(st.fmt), count);
    assert |items| == m.nv;
    Structs.StructRoundTripRest(m.st, items, rest);
  }

  // ---- `_dynamic_format_array` ----

  /** The count serializer `_create` takes from the header's `count`
    * annotation: one unsigned field, announced as one value. */
  function CountSerializer(u: EarlyStrings.UInt, bo: ByteOrder): (r: EarlySerializers.ESer)
    ensures r.Struct? && r.nv == 1 && EarlySerializers.Consistent(r) && r.st.byteOrder == bo
    ensures Strings.CountField(r.st) && Structs.StructSize(r.st) == EarlyStrings.SizeWidth(u)
  {
    Strings.CountFieldSizes(EarlyStrings.CountStruct(u, bo));
    EarlySerializers.Struct(EarlyStrings.CountStruct(u, bo), 1)
  }

  /** `_arr_st` (394-412) for `n` items: the count struct plus `obj * n`,
    * announcing one value fewer than it packs; `obj * 0` is refused. */
  function ArrayStruct(u: EarlyStrings.UInt, bo: ByteOrder, objSt: Structs.StructSer, objNv: nat, n: int)
    : (r: Result<EarlySerializers.ESer>)
    ensures r.Ok? <==> n >= 1
    ensures r.Err? ==> r.error == ValueError
    ensures r.Ok? ==> (r.value.Struct? && r.value.nv == objNv * n && r.value.st.byteOrder == bo
      && Structs.StructSize(r.value.st) == EarlyStrings.SizeWidth(u) + Structs.StructSize(objSt) * n)
  {
    var m := EarlySerializers.StructMulAsWritten(EarlySerializers.Struct(objSt, objNv), Structs.IntFactor(n));
    if m.Err? then Err(m.error)
    else
      var sum := EarlySerializers.StructAdd(CountSerializer(u, bo), m.value);
      Ok(EarlySerializers.Struct(sum.st, sum.nv - 1))
  }

  /** `_arr_st` up to the struct: the list and the struct for its length. */
  function ArrayStructOf(u: EarlyStrings.UInt, bo: ByteOrder, objSt: Structs.StructSer, objNv: nat, values: seq<Value>)
    : (r: Result<(seq<Value>, EarlySerializers.ESer)>)
    ensures |values| == 0 ==> r == Err(IndexError)
    ensures r.Ok? <==> |values| > 0 && Elements(values[0]).Ok? && |Elements(values[0]).value| >= 1
    ensures r.Ok? ==> (r.value.0 == Elements(values[0]).value
      && Ok(r.value.1) == ArrayStruct(u, bo, objSt, objNv, |r.value.0|))
  {
    if |values| == 0 then Err(IndexError)
    else
      var arr := Elements(values[0]);
      if arr.Err? then Err(arr.error)
      else
        var st := ArrayStruct(u, bo, objSt, objNv, |arr.value|);
        if st.Err? then Err(st.error) else Ok((arr.value, st.value))
  }

  /** `_dynamic_format_array.pack` (414-420): the announced number of
    * values, then the items, through the joined struct. */
  function DynamicFormatPack(u: EarlyStrings.UInt, bo: ByteOrder, objSt: Structs.StructSer, objNv: nat, values: seq<Value>)
    : (r: Result<Packed>)
    ensures ArrayStructOf(u, bo, objSt, objNv, values).Err? ==> r == Err(ArrayStructOf(u, bo, objSt, objNv, values).error)
    ensures r.Ok? ==> (ArrayStructOf(u, bo, objSt, objNv, values).Ok?
      && r.value.size == Structs.StructSize(ArrayStructOf(u, bo, objSt, objNv, values).value.1.st))
  {
    var a := ArrayStructOf(u, bo, objSt, objNv, values);
    if a.Err? then Err(a.error)
    else Structs.StructPack(a.value.1.st, [Int(a.value.1.nv)] + a.value.0)
  }

  /** `_dynamic_format_array.unpack` as written (444-452): the length, then
    * `obj * count` over the rest of the buffer; a length of 0 reaches
    * `obj * 0`. */
  function DynamicFormatUnpack(u: EarlyStrings.UInt, bo: ByteOrder, objSt: Structs.StructSer, objNv: nat, bs: seq<byte>)
    : (r: Result<seq<Value>>)
    ensures Strings.ReadCount(EarlyStrings.CountStruct(u, bo), bs) == Ok(0) ==> r == Err(ValueError)
    ensures r.Ok? ==> |r.value| == 1 && r.value[0].List?
  {
    var c := EarlyStrings.CountStruct(u, bo);
    var count := Strings.ReadCount(c, bs);
    if count.Err? then Err(count.error)
    else
      var m := EarlySerializers.StructMulAsWritten(EarlySerializers.Struct(objSt, objNv), Structs.IntFactor(count.value));
      if m.Err? then Err(m.error)
      else
        var items := Structs.StructUnpack(m.value.st, Drop(bs, Structs.StructSize(c)));
        if items.Err? then Err(items.error) else Ok([List(items.value.values)])
  }

  /** `_dynamic_format_array.unpack_from` as written (454-463). */
  function DynamicFormatUnpackFrom(u: EarlyStrings.UInt, bo: ByteOrder, objSt: Structs.StructSer, objNv: nat,
                                   bs: seq<byte>, off: nat): Result<seq<Value>>
  {
    var c := EarlyStrings.CountStruct(u, bo);
    var count := Strings.ReadCountFrom(c, bs, off);
    if count.Err? then Err(count.error)
    else
      var m := EarlySerializers.StructMulAsWritten(EarlySerializers.Struct(objSt, objNv), Structs.IntFactor(count.value));
      if m.Err? then Err(m.error)
      else
        var items := Structs.StructUnpackFrom(m.value.st, bs, off + Structs.StructSize(c));
        if items.Err? then Err(items.error) else Ok([List(items.value.values)])
  }

  /** The serializer as a compound sees it: `unpack` leaves `size` at
    * `stale`, whatever the last `pack` or `pack_into` set it to. */
  function DynamicFormatCodecAsWritten(u: EarlyStrings.UInt, bo: ByteOrder, objSt: Structs.StructSer, objNv: nat,
                                       stale: nat): (r: Codec)
    ensures r.numValues == 1
  {
    Codec(1,
      (obj: Value, vs: seq<Value>) => DynamicFormatPack(u, bo, objSt, objNv, vs),
      (obj: Value, bs: seq<byte>) =>
        var vs := DynamicFormatUnpack(u, bo, objSt, objNv, bs);
        if vs.Err? then Err(vs.error) else Ok(Unpacked(vs.value, stale)),
      (obj: Value, bs: seq<byte>, off: nat) =>
        var vs := DynamicFormatUnpackFrom(u, bo, objSt, objNv, bs, off);
        if vs.Err? then Err(vs.error) else Ok(Unpacked(vs.value, stale)))
  }

  /** The struct for `n` items as the length field intends: the count
    * field alone for none, its fields then `n` copies of the item's
    * otherwise, in the count field's byte order. */
  function ArrayStructFixed(u: EarlyStrings.UInt, bo: ByteOrder, objSt: Structs.StructSer, objNv: nat, n: nat)
    : (r: EarlySerializers.ESer)
    ensures r.Struct? && r.nv == objNv * n && r.st.byteOrder == bo
    ensures Expand(r.st.fmt) == Expand(EarlyStrings.CountStruct(u, bo).fmt) + Structs.Times(Expand(objSt.fmt), n)
  {
    var c := CountSerializer(u, bo);
    if n == 0 then EarlySerializers.Struct(c.st, 0)
    else
      var m := EarlySerializers.StructMul(EarlySerializers.Struct(objSt, objNv), Structs.IntFactor(n)).value;
      var sum := EarlySerializers.StructAdd(c, m);
      ExpandAppend(c.st.fmt, m.st.fmt);
      EarlySerializers.Struct(sum.st, sum.nv - 1)
  }

  /** `pack` with the length field as intended: an empty list packs as its
    * length 0 alone. */
  function DynamicFormatWrite(u: EarlyStrings.UInt, bo: ByteOrder, objSt: Structs.StructSer, objNv: nat, values: seq<Value>)
    : (r: Result<Packed>)
    ensures |values| == 0 ==> r == Err(IndexError)
    ensures |values| > 0 && Elements(values[0]).Err? ==> r == Err(TypeError)
  {
    if |values| == 0 then Err(IndexError)
    else
      var arr := Elements(values[0]);
      if arr.Err? then Err(arr.error)
      else
        var st := ArrayStructFixed(u, bo, objSt, objNv, |arr.value|);
        Structs.StructPack(st.st, [Int(st.nv)] + arr.value)
  }

  /** `unpack` with the length field as intended: a length of 0 is the
    * empty list, and the size is what was read. */
  function DynamicFormatRead(u: EarlyStrings.UInt, bo: ByteOrder, objSt: Structs.StructSer, objNv: nat, bs: seq<byte>)
    : (r: Result<Unpacked>)
    ensures r.Ok? ==> r.value.size >= EarlyStrings.SizeWidth(u) && |r.value.values| == 1
    ensures Strings.ReadCount(EarlyStrings.CountStruct(u, bo), bs) == Ok(0) ==>
      r == Ok(Unpacked([List([])], EarlyStrings.SizeWidth(u)))
  {
    var c := EarlyStrings.CountStruct(u, bo);
    var count := Strings.ReadCount(c, bs);
    if count.Err? then Err(count.error)
    else if count.value == 0 then Ok(Unpacked([List([])], Structs.StructSize(c)))
    else
      var m := EarlySerializers.StructMul(EarlySerializers.Struct(objSt, objNv), Structs.IntFactor(count.value)).value;
      var items := Structs.StructUnpack(m.st, Drop(bs, Structs.StructSize(c)));
      if items.Err? then Err(items.error)
      else Ok(Unpacked([List(items.value.values)], Structs.StructSize(c) + items.value.size))
  }

  /** `unpack_from` with the length field as intended. */
  function DynamicFormatReadFrom(u: EarlyStrings.UInt, bo: ByteOrder, objSt: Structs.StructSer, objNv: nat,
                                 bs: seq<byte>, off: nat): Result<Unpacked>
  {
    var c := EarlyStrings.CountStruct(u, bo);
    var count := Strings.ReadCountFrom(c, bs, off);
    if count.Err? then Err(count.error)
    else if count.value == 0 then Ok(Unpacked([List([])], Structs.StructSize(c)))
    else
      var m := EarlySerializers.StructMul(EarlySerializers.Struct(objSt, objNv), Structs.IntFactor(count.value)).value;
      var items := Structs.StructUnpackFrom(m.st, bs, off + Structs.StructSize(c));
      if items.Err? then Err(items.error)
      else Ok(Unpacked([List(items.value.values)], Structs.StructSize(c) + items.value.size))
  }

  /** The corrected serializer: `unpack` reports what it read. */
  function DynamicFormatCodec(u: EarlyStrings.UInt, bo: ByteOrder, objSt: Structs.StructSer, objNv: nat): (r: Codec)
    ensures r.numValues == 1
  {
    Codec(1,
      (obj: Value, vs: seq<Value>) => DynamicFormatWrite(u, bo, objSt, objNv, vs),
      (obj: Value, bs: seq<byte>) => DynamicFormatRead(u, bo, objSt, objNv, bs),
      (obj: Value, bs: seq<byte>, off: nat) => DynamicFormatReadFrom(u, bo, objSt, objNv, bs, off))
  }

  /** Reading at an offset is reading from that offset on, as written. */
  lemma {:induction false} DynamicFormatOffsetConsistent(u: EarlyStrings.UInt, bo: ByteOrder, objSt: Structs.StructSer,
                                                       objNv: nat, bs: seq<byte>, off: nat)
    requires off <= |bs|
    ensures DynamicFormatUnpackFrom(u, bo, objSt, objNv, bs, off) == DynamicFormatUnpack(u, bo, objSt, objNv, Drop(bs, off))
  {
    hide Structs.StructUnpack, Structs.StructUnpackFrom, Strings.ReadCount, Strings.ReadCountFrom, Drop,
      EarlySerializers.StructMul, EarlySerializers.StructMulAsWritten, EarlyStrings.CountStruct, Structs.StructSize,
      PyStruct.CalcSize, PyStruct.Expand, Structs.StructNumValues, PyStruct.Unpack, PyStruct.UnpackFrom;
    var c := EarlyStrings.CountStruct(u, bo);
    CountReadAt(c, bs, off);
    var count := Strings.ReadCountFrom(c, bs, off);
    if count.Ok? {
      var m := EarlySerializers.StructMulAsWritten(EarlySerializers.Struct(objSt, objNv), Structs.IntFactor(count.value));
      if m.Ok? {
        ItemsAtOffset(m.value.st, bs, off, Structs.StructSize(c));
      }
    }
  }

  /** Reading at an offset is reading from that offset on, as corrected. */
  lemma {:induction false} DynamicFormatReadOffsetConsistent(u: EarlyStrings.UInt, bo: ByteOrder, objSt: Structs.StructSer,
                                                           objNv: nat, bs: seq<byte>, off: nat)
    requires off <= |bs|
    ensures DynamicFormatReadFrom(u, bo, objSt, objNv, bs, off) == DynamicFormatRead(u, bo, objSt, objNv, Drop(bs, off))
  {
    hide Structs.StructUnpack, Structs.StructUnpackFrom, Strings.ReadCount, Strings.ReadCountFrom, Drop,
      EarlySerializers.StructMul, EarlySerializers.StructMulAsWritten, EarlyStrings.CountStruct, Structs.StructSize,
      PyStruct.CalcSize, PyStruct.Expand, Structs.StructNumValues, PyStruct.Unpack, PyStruct.UnpackFrom;
    var c := EarlyStrings.CountStruct(u, bo);
    CountReadAt(c, bs, off);
    var count := Strings.ReadCountFrom(c, bs, off);
    if count.Ok? && count.value > 0 {
      EarlySerializers.StructMulAccepts(EarlySerializers.Struct(objSt, objNv), count.value);
      var m := EarlySerializers.StructMul(EarlySerializers.Struct(objSt, objNv), Structs.IntFactor(count.value)).value;
      var w := Structs.StructSize(c);
      assert Structs.StructUnpackFrom(m.st, bs, off + w) == Structs.StructUnpack(m.st, Drop(Drop(bs, off), w)) by {
        ItemsAtOffset(m.st, bs, off, w);
      }
    }
  }

  /** The count of a dynamic format array read at an offset is the count
    * read from the tail there. */
  lemma {:induction false} CountReadAt(c: Structs.StructSer, bs: seq<byte>, off: nat)
    requires Strings.CountField(c) && off <= |bs|
    ensures Strings.ReadCountFrom(c, bs, off) == Strings.ReadCount(c, Drop(bs, off))
  {
    DropIsSuffix(bs, off);
  }

  lemma {:induction false} ItemsAtOffset(m: Structs.StructSer, bs: seq<byte>, off: nat, w: nat)
    requires off + w <= |bs|
    ensures Structs.StructUnpackFrom(m, bs, off + w) == Structs.StructUnpack(m, Drop(Drop(bs, off), w))
  {
    DropDrop(bs, off, w);
    DropIsSuffix(bs, off + w);
    Semantics.StructUnpackFromIsUnpack(m, bs, off + w);
  }

  /** A length that fits its `uint*` field is a value the field packs and
    * reads back. */
  lemma {:induction false} CountCanonical(u: EarlyStrings.UInt, bo: ByteOrder, n: nat)
    requires n < Pow256(EarlyStrings.SizeWidth(u))
    ensures CanonicalValues(Expand(EarlyStrings.CountStruct(u, bo).fmt), [Int(n)])
  {
    var us := Expand(EarlyStrings.CountStruct(u, bo).fmt);
    assert us == [Unsigned(EarlyStrings.SizeWidth(u))];
    assert us[1..] == [] && [Int(n)][1..] == [];
  }

  /** The count field reads back the length it packed, and what follows it
    * is left for the items. */
  lemma {:induction false} CountReads(u: EarlyStrings.UInt, bo: ByteOrder, n: nat, tail: seq<byte>)
    requires n < Pow256(EarlyStrings.SizeWidth(u))
    ensures var c := EarlyStrings.CountStruct(u, bo);
      Structs.StructPack(c, [Int(n)]).Ok?
      && Strings.ReadCount(c, Structs.StructPack(c, [Int(n)]).value.data + tail) == Ok(n)
      && Drop(Structs.StructPack(c, [Int(n)]).value.data + tail, EarlyStrings.SizeWidth(u)) == tail
  {
    var c := EarlyStrings.CountStruct(u, bo);
    CountCanonical(u, bo, n);
    Structs.StructRoundTripRest(c, [Int(n)], tail);
    DropPrefix(Structs.StructPack(c, [Int(n)]).value.data, tail);
  }

  /** A non-empty list packs as its length in the count field followed by
    * the items packed by `n` copies of the item struct. */
  lemma {:induction false} DynamicWriteLayout(u: EarlyStrings.UInt, bo: ByteOrder, objSt: Structs.StructSer, items: seq<Value>)
    requires objSt.byteOrder == bo && |items| >= 1
    requires CanonicalValues(Structs.Times(Expand(objSt.fmt), |items|), items)
    ensures var c := EarlyStrings.CountStruct(u, bo);
      var m := EarlySerializers.StructMul(EarlySerializers.Struct(objSt, 1), Structs.IntFactor(|items|)).value;
      DynamicFormatWrite(u, bo, objSt, 1, [List(items)])
        == Compounds.ThenPack(Structs.StructPack(c, [Int(|items|)]), Structs.StructPack(m.st, items))
  {
    var n := |items|;
    var c := EarlyStrings.CountStruct(u, bo);
    var m := EarlySerializers.StructMul(EarlySerializers.Struct(objSt, 1), Structs.IntFactor(n)).value;
    var j := ArrayStructFixed(u, bo, objSt, 1, n);
    assert Semantics.Joins(j.st, c, m.st);
    Strings.CountFieldSizes(c);
    assert |items| == Structs.StructNumValues(m.st);
    Semantics.StructPackJoin(j.st, c, m.st, [Int(n)], items);
  }

  /** Reading the layout `DynamicWriteLayout` describes. */
  lemma {:induction false} DynamicReadLayout(u: EarlyStrings.UInt, bo: ByteOrder, objSt: Structs.StructSer, items: seq<Value>,
                                             cd: seq<byte>, md: seq<byte>, rest: seq<byte>)
    requires |items| >= 1 && |items| < Pow256(EarlyStrings.SizeWidth(u))
    requires CanonicalValues(Structs.Times(Expand(objSt.fmt), |items|), items)
    requires var c := EarlyStrings.CountStruct(u, bo);
      Structs.StructPack(c, [Int(|items|)]).Ok? && cd == Structs.StructPack(c, [Int(|items|)]).value.data
    requires var m := EarlySerializers.StructMul(EarlySerializers.Struct(objSt, 1), Structs.IntFactor(|items|)).value;
      Structs.StructPack(m.st, items).Ok? && md == Structs.StructPack(m.st, items).value.data
    ensures var m := EarlySerializers.StructMul(EarlySerializers.Struct(objSt, 1), Structs.IntFactor(|items|)).value;
      DynamicFormatRead(u, bo, objSt, 1, cd + md + rest)
        == Ok(Unpacked([List(items)], EarlyStrings.SizeWidth(u) + Structs.StructSize(m.st)))
  {
    var m := EarlySerializers.StructMul(EarlySerializers.Struct(objSt, 1), Structs.IntFactor(|items|)).value;
    ConcatAssoc(cd, md, rest);
    CountReads(u, bo, |items|, md + rest);
    Structs.StructRoundTripRest(m.st, items, rest);
  }

  /** Every list the corrected serializer can represent, the empty one
    * included, reads back as itself, whatever follows it. */
  lemma {:induction false} DynamicFormatRoundTrip(u: EarlyStrings.UInt, bo: ByteOrder, objSt: Structs.StructSer,
                                                  items: seq<Value>, rest: seq<byte>)
    requires objSt.byteOrder == bo
    requires |items| < Pow256(EarlyStrings.SizeWidth(u))
    requires CanonicalValues(Structs.Times(Expand(objSt.fmt), |items|), items)
    ensures var p := DynamicFormatWrite(u, bo, objSt, 1, [List(items)]);
      p.Ok? && DynamicFormatRead(u, bo, objSt, 1, p.value.data + rest) == Ok(Unpacked([List(items)], p.value.size))
  {
    hide Structs.StructUnpack, Structs.StructUnpackFrom, Strings.ReadCount, Strings.ReadCountFrom, Drop,
      EarlySerializers.StructMul, EarlySerializers.StructMulAsWritten, EarlyStrings.CountStruct, Structs.StructSize,
      PyStruct.CalcSize, PyStruct.Expand, Structs.StructNumValues, PyStruct.Unpack, PyStruct.UnpackFrom;
    var c := EarlyStrings.CountStruct(u, bo);
    if |items| == 0 {
      assert [Int(0)] + items == [Int(0)];
      CountReads(u, bo, 0, rest);
    } else {
      EarlySerializers.StructMulAccepts(EarlySerializers.Struct(objSt, 1), |items|);
      var m := EarlySerializers.StructMul(EarlySerializers.Struct(objSt, 1), Structs.IntFactor(|items|)).value;
      DynamicWriteLayout(u, bo, objSt, items);
      CountCanonical(u, bo, |items|);
      Structs.StructRoundTrip(c, [Int(|items|)]);
      Structs.StructRoundTripRest(m.st, items, []);
      DynamicReadLayout(u, bo, objSt, items, Structs.StructPack(c, [Int(|items|)]).value.data,
        Structs.StructPack(m.st, items).value.data, rest);
    }
  }

  /** For a non-empty list of an item struct without a leading string, the
    * serializer as written packs what the corrected one packs. */
  lemma {:induction false} DynamicPackAgrees(u: EarlyStrings.UInt, bo: ByteOrder, objSt: Structs.StructSer,
                                             items: seq<Value>)
    requires |items| >= 1 && (objSt.fmt == [] || !IsStringChar(objSt.fmt[0].spec))
    ensures DynamicFormatPack(u, bo, objSt, 1, [List(items)]) == DynamicFormatWrite(u, bo, objSt, 1, [List(items)])
  {
    hide Structs.StructUnpack, Structs.StructUnpackFrom, Strings.ReadCount, Strings.ReadCountFrom, Drop,
      EarlySerializers.StructMul, EarlySerializers.StructMulAsWritten, EarlyStrings.CountStruct, Structs.StructSize,
      PyStruct.CalcSize, PyStruct.Expand, Structs.StructNumValues, PyStruct.Unpack, PyStruct.UnpackFrom;
    MulAgrees(objSt, 1, |items|);
  }

  /** ... and reads what it reads from any buffer whose length field is
    * not 0. */
  lemma {:induction false} DynamicUnpackAgrees(u: EarlyStrings.UInt, bo: ByteOrder, objSt: Structs.StructSer, bs: seq<byte>)
    requires objSt.fmt == [] || !IsStringChar(objSt.fmt[0].spec)
    requires Strings.ReadCount(EarlyStrings.CountStruct(u, bo), bs) != Ok(0)
    ensures DynamicFormatUnpack(u, bo, objSt, 1, bs)
      == (var r := DynamicFormatRead(u, bo, objSt, 1, bs); if r.Err? then Err(r.error) else Ok(r.value.values))
  {
    hide Structs.StructUnpack, Structs.StructUnpackFrom, Strings.ReadCount, Strings.ReadCountFrom, Drop,
      EarlySerializers.StructMul, EarlySerializers.StructMulAsWritten, EarlyStrings.CountStruct, Structs.StructSize,
      PyStruct.CalcSize, PyStruct.Expand, Structs.StructNumValues, PyStruct.Unpack, PyStruct.UnpackFrom;
    var count := Strings.ReadCount(EarlyStrings.CountStruct(u, bo), bs);
    if count.Ok? {
      MulAgrees(objSt, 1, count.value);
      EarlySerializers.StructMulAccepts(EarlySerializers.Struct(objSt, 1), count.value);
    }
  }

  /** As written, an empty list cannot be packed, `obj * 0` being refused,
    * and a length field holding 0 cannot be read either; the corrected
    * serializer packs the empty list as its length alone. */
  lemma {:induction false} EmptyDynamicFormatArray(u: EarlyStrings.UInt, bo: ByteOrder, objSt: Structs.StructSer, objNv: nat, rest: seq<byte>)
    ensures DynamicFormatPack(u, bo, objSt, objNv, [List([])]) == Err(ValueError)
    ensures DynamicFormatUnpack(u, bo, objSt, objNv, EncodeUnsigned(bo, 0, EarlyStrings.SizeWidth(u)) + rest) == Err(ValueError)
    ensures DynamicFormatWrite(u, bo, objSt, objNv, [List([])])
      == Ok(Packed(EncodeUnsigned(bo, 0, EarlyStrings.SizeWidth(u)), EarlyStrings.SizeWidth(u)))
  {
    hide PyStruct.Pack, PyStruct.Unpack, PyStruct.PackUnits, PyStruct.UnpackUnits, Structs.StructUnpack;
    var c := EarlyStrings.CountStruct(u, bo);
    Strings.CountFieldPack(c, 0);
    CountReads(u, bo, 0, rest);
    assert [Int(0)] + [] == [Int(0)];
  }

  /** In a compound, the array as written hands the next serializer the
    * buffer from its stale `size` on, not from where its items end. */
  lemma {:induction false} StaleSizeInCompound(u: EarlyStrings.UInt, bo: ByteOrder, objSt: Structs.StructSer, objNv: nat, stale: nat,
                            next: Codec, bs: seq<byte>)
    ensures Compounds.CompoundUnpack([DynamicFormatCodecAsWritten(u, bo, objSt, objNv, stale), next], NoneValue, bs)
      == (var a := DynamicFormatUnpack(u, bo, objSt, objNv, bs);
          if a.Err? then Err(a.error)
          else Compounds.ThenUnpack(Ok(Unpacked(a.value, stale)), UnpackWith(next, NoneValue, Drop(bs, stale))))
  {
    Compounds.CompoundUnpackPair(DynamicFormatCodecAsWritten(u, bo, objSt, objNv, stale), next, NoneValue, bs);
  }

  /** One `uint8` reads the byte in front of the buffer. */
  lemma {:induction false} ByteReads(b: byte, tail: seq<byte>)
    ensures Structs.StructUnpack(EarlyStrings.CountStruct(EarlyStrings.U8, Default), [b] + tail) == Ok(Unpacked([Int(b)], 1))
    ensures Strings.ReadCount(EarlyStrings.CountStruct(EarlyStrings.U8, Default), [b] + tail) == Ok(b)
  {
    var c := EarlyStrings.CountStruct(EarlyStrings.U8, Default);
    Strings.CountFieldUnpack(c, [b] + tail);
    assert ([b] + tail)[..1] == [b];
    assert Reverse([b]) == [b] by {
      assert [b][1..] == [];
    }
    assert FromLittleEndian([b]) == b by {
      assert [b][1..] == [];
    }
  }

  /** `01 07 09` cut up by one-byte fields. */
  lemma {:induction false} SampleBytes()
    ensures var u8 := EarlyStrings.CountStruct(EarlyStrings.U8, Default);
      var bs: seq<byte> := [1, 7, 9];
      Strings.ReadCount(u8, bs) == Ok(1) && Structs.StructUnpack(u8, bs) == Ok(Unpacked([Int(1)], 1))
      && Structs.StructUnpack(u8, Drop(bs, 1)) == Ok(Unpacked([Int(7)], 1))
      && Structs.StructUnpack(u8, Drop(bs, 2)) == Ok(Unpacked([Int(9)], 1))
  {
    var bs: seq<byte> := [1, 7, 9];
    ByteReads(1, [7, 9]);
    assert [1] + [7, 9] == bs;
    DropIsSuffix(bs, 1);
    assert Drop(bs, 1) == [7] + [9];
    ByteReads(7, [9]);
    DropIsSuffix(bs, 2);
    assert Drop(bs, 2) == [9] + [];
    ByteReads(9, []);
  }

  /** The array of `SampleBytes` read by itself: one item, `07`. */
  lemma {:induction false} SampleArray()
    ensures var u8 := EarlyStrings.CountStruct(EarlyStrings.U8, Default);
      DynamicFormatUnpack(EarlyStrings.U8, Default, u8, 1, [1, 7, 9]) == Ok([List([Int(7)])])
      && DynamicFormatRead(EarlyStrings.U8, Default, u8, 1, [1, 7, 9]) == Ok(Unpacked([List([Int(7)])], 2))
  {
    var u8 := EarlyStrings.CountStruct(EarlyStrings.U8, Default);
    var s := EarlySerializers.Struct(u8, 1);
    SampleBytes();
    assert EarlySerializers.StructMul(s, Structs.IntFactor(1)) == Ok(s);
    assert EarlySerializers.StructMulAsWritten(s, Structs.IntFactor(1)) == Ok(s);
  }

  /** A record of a `uint8`-counted array of `uint8` then one more `uint8`,
    * read from `01 07 09` by a fresh serializer (`size` 0): as written the
    * last field reads the length byte again and the record is 1 byte
    * long. */
  lemma {:induction false} StaleSizeExample()
    ensures var u8 := EarlyStrings.CountStruct(EarlyStrings.U8, Default);
      Compounds.CompoundUnpack([DynamicFormatCodecAsWritten(EarlyStrings.U8, Default, u8, 1, 0),
                                EarlySerializers.StructCodec(u8, 1)], NoneValue, [1, 7, 9])
        == Ok(Unpacked([List([Int(7)]), Int(1)], 1))
  {
    var u8 := EarlyStrings.CountStruct(EarlyStrings.U8, Default);
    var bs: seq<byte> := [1, 7, 9];
    var arr := DynamicFormatCodecAsWritten(EarlyStrings.U8, Default, u8, 1, 0);
    var next := EarlySerializers.StructCodec(u8, 1);
    SampleBytes();
    SampleArray();
    assert UnpackWith(arr, NoneValue, bs) == Ok(Unpacked([List([Int(7)])], 0));
    assert Drop(bs, 0) == bs;
    assert UnpackWith(next, NoneValue, Drop(bs, 0)) == Ok(Unpacked([Int(1)], 1));
    Compounds.CompoundUnpackPair(arr, next, NoneValue, bs);
    assert [List([Int(7)])] + [Int(1)] == [List([Int(7)]), Int(1)];
  }

  /** The same record read by the corrected serializer: the last field
    * reads `09` and the record is 3 bytes long. */
  lemma {:induction false} StaleSizeCorrected()
    ensures var u8 := EarlyStrings.CountStruct(EarlyStrings.U8, Default);
      Compounds.CompoundUnpack([DynamicFormatCodec(EarlyStrings.U8, Default, u8, 1),
                                EarlySerializers.StructCodec(u8, 1)], NoneValue, [1, 7, 9])
        == Ok(Unpacked([List([Int(7)]), Int(9)], 3))
  {
    var u8 := EarlyStrings.CountStruct(EarlyStrings.U8, Default);
    var bs: seq<byte> := [1, 7, 9];
    var arr := DynamicFormatCodec(EarlyStrings.U8, Default, u8, 1);
    var next := EarlySerializers.StructCodec(u8, 1);
    SampleBytes();
    SampleArray();
    assert UnpackWith(arr, NoneValue, bs) == Ok(Unpacked([List([Int(7)])], 2));
    assert UnpackWith(next, NoneValue, Drop(bs, 2)) == Ok(Unpacked([Int(9)], 1));
    Compounds.CompoundUnpackPair(arr, next, NoneValue, bs);
    assert [List([Int(7)])] + [Int(9)] == [List([Int(7)]), Int(9)];
  }

  /** The bytes of a successful `pack`. */
  function DataOf(p: Result<Packed>): Result<seq<byte>>
  {
    if p.Err? then Err(p.error) else Ok(p.value.data)
  }

  /** `_dynamic_format_array` (360-474): `size` starts at 0 and is set by
    * `_arr_st`, which `pack` and `pack_into` run; `unpack` and
    * `unpack_from` neither read nor write it. */
  class DynamicFormatArraySerializer {
    const countType: EarlyStrings.UInt
    const countOrder: ByteOrder
    const objSt: Structs.StructSer
    const objNv: nat
    var size: nat

    constructor (countType: EarlyStrings.UInt, countOrder: ByteOrder, objSt: Structs.StructSer, objNv: nat)
      ensures this.countType == countType && this.countOrder == countOrder
      ensures this.objSt == objSt && this.objNv == objNv && size == 0
    {
      this.countType := countType;
      this.countOrder := countOrder;
      this.objSt := objSt;
      this.objNv := objNv;
      size := 0;
    }

    /** `_arr_st`: `size` becomes the joined struct's once it is built. */
    method ArrSt(values: seq<Value>) returns (r: Result<(seq<Value>, EarlySerializers.ESer)>)
      modifies this
      ensures r == ArrayStructOf(countType, countOrder, objSt, objNv, values)
      ensures size == if r.Ok? then Structs.StructSize(r.value.1.st) else old(size)
    {
      r := ArrayStructOf(countType, countOrder, objSt, objNv, values);
      if r.Ok? {
        size := Structs.StructSize(r.value.1.st);
      }
    }

    method Pack(values: seq<Value>) returns (r: Result<seq<byte>>)
      modifies this
      ensures r == DataOf(DynamicFormatPack(countType, countOrder, objSt, objNv, values))
      ensures var a := ArrayStructOf(countType, countOrder, objSt, objNv, values);
        size == if a.Ok? then Structs.StructSize(a.value.1.st) else old(size)
    {
      var a := ArrSt(values);
      if a.Err? {
        return Err(a.error);
      }
      var (arr, st) := a.value;
      var p := Structs.StructPack(st.st, [Int(st.nv)] + arr);
      if p.Err? {
        return Err(p.error);
      }
      return Ok(p.value.data);
    }

    /** `pack_into`: `struct.pack_into` refuses a buffer too short for the
      * struct at `offset` and then writes nothing. */
    method PackInto(buffer: array<byte>, offset: nat, values: seq<Value>) returns (r: Result<()>)
      modifies this, buffer
      ensures var a := ArrayStructOf(countType, countOrder, objSt, objNv, values);
        size == if a.Ok? then Structs.StructSize(a.value.1.st) else old(size)
      ensures var p := DynamicFormatPack(countType, countOrder, objSt, objNv, values);
        (p.Err? ==> r == Err(p.error) && buffer[..] == old(buffer[..]))
        && (p.Ok? && offset + |p.value.data| > buffer.Length ==> r == Err(StructError) && buffer[..] == old(buffer[..]))
        && (p.Ok? && offset + |p.value.data| <= buffer.Length ==>
              r == Ok(()) && buffer[..] == EarlyBaseTypes.Overwrite(old(buffer[..]), offset, p.value.data))
    {
      var a := ArrSt(values);
      if a.Err? {
        return Err(a.error);
      }
      var (arr, st) := a.value;
      var p := Structs.StructPack(st.st, [Int(st.nv)] + arr);
      if p.Err? {
        return Err(p.error);
      }
      if offset + |p.value.data| > buffer.Length {
        return Err(StructError);
      }
      EarlyBaseTypes.Write(buffer, offset, p.value.data);
      return Ok(());
    }

    /** What a compound holding this serializer reads with it now. */
    function AsCodec(): Codec
      reads this
    {
      DynamicFormatCodecAsWritten(countType, countOrder, objSt, objNv, size)
    }
  }

  // ---- `_structured_array` (172-253) ----

  /** What a `pack` leaves behind: its outcome, the header object's
    * attributes, and the `size` it assigned (None: `size` left as it was). */
  datatype PackRun = PackRun(outcome: Result<Packed>, attributes: map<string, Value>, size: Option<nat>)

  /** What a `pack_into` leaves behind, the buffer included. */
  datatype IntoRun = IntoRun(outcome: Result<()>, buffer: seq<byte>, attributes: map<string, Value>, size: Option<nat>)

  /** What an `unpack` or `unpack_from` leaves behind. */
  datatype ReadRun = ReadRun(outcome: Result<Unpacked>, attributes: map<string, Value>, size: Option<nat>)

  /** `pack` through `pack_write` into a fresh stream (190-227): the length
    * is assigned to the header, the header written, the items written
    * after it, and a size-checked header written again over the first
    * one once the data size is known. */
  function StructuredPackRun(k: EarlyHeaders.HeaderKind, bo: ByteOrder, elem: Codec,
                             attributes: map<string, Value>, values: seq<Value>): (r: PackRun)
    ensures |values| == 0 ==> r == PackRun(Err(IndexError), attributes, None)
  {
    if |values| == 0 then PackRun(Err(IndexError), attributes, None)
    else
      var items := Elements(values[0]);
      if items.Err? then PackRun(Err(items.error), attributes, None)
      else
        var counted := EarlyHeaders.CountAssigned(k, attributes, |items.value|);
        if counted.Err? then PackRun(Err(counted.error), attributes, None)
        else PackCounted(k, bo, elem, counted.value, items.value)
  }

  /** `pack_write` once the length is assigned: the header written in
    * front records the header object's final attributes, the length among
    * them, and a size-checked header records the items' byte count. */
  function PackCounted(k: EarlyHeaders.HeaderKind, bo: ByteOrder, elem: Codec,
                       counted: map<string, Value>, items: seq<Value>): (r: PackRun)
    ensures r.outcome.Ok? ==> r.size == Some(r.outcome.value.size)
  {
    var first := EarlyHeaders.HeaderBytes(k, bo, counted);
    if first.Err? then PackRun(Err(first.error), counted, None)
    else
      var hs := EarlyHeaders.HeaderSize(k);
      var body := Arrays.PackItems(elem, NoneValue, items, 0);
      if body.Err? then PackRun(Err(body.error), counted, Some(hs))
      else if !EarlyHeaders.TwoPass(k) then
        PackRun(Ok(Packed(first.value + body.value.data, hs + body.value.size)), counted, Some(hs + body.value.size))
      else
        var sized := counted["data_size" := Int(body.value.size)];
        var second := EarlyHeaders.HeaderBytes(k, bo, sized);
        if second.Err? then PackRun(Err(second.error), sized, Some(hs + body.value.size))
        else PackRun(Ok(Packed(second.value + body.value.data, hs + body.value.size)), sized, Some(hs + body.value.size))
  }

  /** The ways out of `pack_write` once the first header is packed and the
    * items have been packed. */
  lemma {:induction false} PackCountedExits(k: EarlyHeaders.HeaderKind, bo: ByteOrder, elem: Codec,
                                            counted: map<string, Value>, items: seq<Value>,
                                            first: Result<seq<byte>>, body: Result<Packed>)
    requires first == EarlyHeaders.HeaderBytes(k, bo, counted) && first.Ok?
    requires body == Arrays.PackItems(elem, NoneValue, items, 0)
    ensures body.Err? ==> PackCounted(k, bo, elem, counted, items) == PackRun(Err(body.error), counted, Some(EarlyHeaders.HeaderSize(k)))
    ensures body.Ok? && !EarlyHeaders.TwoPass(k) ==>
      PackCounted(k, bo, elem, counted, items)
        == PackRun(Ok(Packed(first.value + body.value.data, EarlyHeaders.HeaderSize(k) + body.value.size)), counted,
                   Some(EarlyHeaders.HeaderSize(k) + body.value.size))
  {
    hide Arrays.PackItems, WriteItems, EarlyHeaders.HeaderBytes, PackWith, EarlyBaseTypes.Overwrite, Records.Assigned;
  }

  /** The second write of a size-checked header in `pack_write`. */
  lemma {:induction false} PackCountedSecond(k: EarlyHeaders.HeaderKind, bo: ByteOrder, elem: Codec,
                                             counted: map<string, Value>, items: seq<Value>,
                                             first: Result<seq<byte>>, body: Result<Packed>)
    requires first == EarlyHeaders.HeaderBytes(k, bo, counted) && first.Ok?
    requires body == Arrays.PackItems(elem, NoneValue, items, 0) && body.Ok? && EarlyHeaders.TwoPass(k)
    ensures var sized := counted["data_size" := Int(body.value.size)];
      var second := EarlyHeaders.HeaderBytes(k, bo, sized);
      PackCounted(k, bo, elem, counted, items)
        == (if second.Err? then PackRun(Err(second.error), sized, Some(EarlyHeaders.HeaderSize(k) + body.value.size))
            else PackRun(Ok(Packed(second.value + body.value.data, EarlyHeaders.HeaderSize(k) + body.value.size)), sized,
                         Some(EarlyHeaders.HeaderSize(k) + body.value.size)))
  {
    hide Arrays.PackItems, WriteItems, EarlyHeaders.HeaderBytes, PackWith, EarlyBaseTypes.Overwrite, Records.Assigned;
  }

  /** What a header written by `pack_write` records: the header object's
    * final attributes, the length among them and, in a size-checked
    * header, the items' byte count. */
  predicate PackedHeader(k: EarlyHeaders.HeaderKind, bo: ByteOrder, r: PackRun)
    requires r.outcome.Ok?
  {
    r.size == Some(r.outcome.value.size) && r.outcome.value.size >= EarlyHeaders.HeaderSize(k)
    && EarlyHeaders.HeaderBytes(k, bo, r.attributes).Ok? && |r.outcome.value.data| >= EarlyHeaders.HeaderSize(k)
    && r.outcome.value.data[..EarlyHeaders.HeaderSize(k)] == EarlyHeaders.HeaderBytes(k, bo, r.attributes).value
    && (EarlyHeaders.TwoPass(k) ==>
          "data_size" in r.attributes
          && r.attributes["data_size"] == Int(r.outcome.value.size - EarlyHeaders.HeaderSize(k)))
  }

  /** `pack_write` once the length is assigned keeps the length and writes
    * the header its final attributes describe in front. */
  lemma {:induction false} PackCountedHeader(k: EarlyHeaders.HeaderKind, bo: ByteOrder, elem: Codec,
                                             counted: map<string, Value>, items: seq<Value>)
    ensures var r := PackCounted(k, bo, elem, counted, items);
      r.outcome.Ok? ==> (EarlyHeaders.LoopCount(k, r.attributes) == EarlyHeaders.LoopCount(k, counted) && PackedHeader(k, bo, r))
  {
    var r := PackCounted(k, bo, elem, counted, items);
    if r.outcome.Ok? {
      var first := EarlyHeaders.HeaderBytes(k, bo, counted).value;
      var hs := EarlyHeaders.HeaderSize(k);
      var body := Arrays.PackItems(elem, NoneValue, items, 0).value;
      if !EarlyHeaders.TwoPass(k) {
        assert (first + body.data)[..hs] == first;
      } else {
        var sized := counted["data_size" := Int(body.size)];
        SizedLoopCount(k, counted, body.size);
        var second := EarlyHeaders.HeaderBytes(k, bo, sized).value;
        assert (second + body.data)[..hs] == second;
      }
    }
  }

  /** `pack` keeps the length of the items it was given in the header
    * object and writes the header its final attributes describe in front
    * of the items. */
  lemma {:induction false} PackWritesHeader(k: EarlyHeaders.HeaderKind, bo: ByteOrder, elem: Codec,
                                            attributes: map<string, Value>, values: seq<Value>)
    ensures var r := StructuredPackRun(k, bo, elem, attributes, values);
      r.outcome.Ok? ==> (|values| >= 1 && Elements(values[0]).Ok?
        && EarlyHeaders.LoopCount(k, r.attributes) == Ok(|Elements(values[0]).value|) && PackedHeader(k, bo, r))
  {
    if |values| >= 1 && Elements(values[0]).Ok? {
      var items := Elements(values[0]).value;
      var counted := EarlyHeaders.CountAssigned(k, attributes, |items|);
      if counted.Ok? {
        PackCountedHeader(k, bo, elem, counted.value, items);
      }
    }
  }

  /** Assigning `data_size` leaves the length alone. */
  lemma {:induction false} SizedLoopCount(k: EarlyHeaders.HeaderKind, attributes: map<string, Value>, n: int)
    ensures EarlyHeaders.LoopCount(k, attributes["data_size" := Int(n)]) == EarlyHeaders.LoopCount(k, attributes)
  {
    assert "count" != "data_size";
  }

  /** How far a run of writes got: its outcome, the position reached and
    * the buffer as left. */
  datatype Progress = Progress(outcome: Result<()>, pos: nat, buffer: seq<byte>)

  /** The `pack_into` loop (200-202): each item is packed at `pos`, which
    * then moves on by the item's size; a pack error or a buffer too short
    * for the item stops it. */
  function WriteItems(b: seq<byte>, c: Codec, items: seq<Value>, k: nat, pos: nat): (r: Progress)
    ensures r.pos >= pos && |r.buffer| == |b|
    decreases |items| - k
  {
    if k >= |items| then Progress(Ok(()), pos, b)
    else
      var p := PackWith(c, NoneValue, [items[k]]);
      if p.Err? then Progress(Err(p.error), pos, b)
      else if pos + |p.value.data| > |b| then Progress(Err(StructError), pos, b)
      else WriteItems(EarlyBaseTypes.Overwrite(b, pos, p.value.data), c, items, k + 1, pos + p.value.size)
  }

  /** `pack_into` (196-205): the length is assigned, the items written
    * after the header's place, the data size assigned (to every kind of
    * header), and the header written last in front of them. */
  function StructuredPackIntoRun(k: EarlyHeaders.HeaderKind, bo: ByteOrder, elem: Codec, attributes: map<string, Value>,
                                 values: seq<Value>, b: seq<byte>, offset: nat): (r: IntoRun)
    ensures |r.buffer| == |b|
    ensures |values| == 0 ==> r == IntoRun(Err(IndexError), b, attributes, None)
  {
    if |values| == 0 then IntoRun(Err(IndexError), b, attributes, None)
    else
      var items := Elements(values[0]);
      if items.Err? then IntoRun(Err(items.error), b, attributes, None)
      else
        var counted := EarlyHeaders.CountAssigned(k, attributes, |items.value|);
        if counted.Err? then IntoRun(Err(counted.error), b, attributes, None)
        else IntoCounted(k, bo, elem, counted.value, items.value, b, offset)
  }

  /** `pack_into` once the length is assigned: the header written in front
    * of the items records the header object's final attributes, with the
    * byte count of the items as its data size. */
  function IntoCounted(k: EarlyHeaders.HeaderKind, bo: ByteOrder, elem: Codec, counted: map<string, Value>,
                       items: seq<Value>, b: seq<byte>, offset: nat): (r: IntoRun)
    ensures |r.buffer| == |b|
  {
    var w := WriteItems(b, elem, items, 0, offset + EarlyHeaders.HeaderSize(k));
    if w.outcome.Err? then IntoRun(Err(w.outcome.error), w.buffer, counted, Some(w.pos - offset))
    else IntoHeader(k, bo, counted, w.buffer, offset, w.pos - offset)
  }

  /** The end of `pack_into` (203-205), the items' writes having left the
    * buffer `w` and reached `size` bytes past the offset: the data size
    * assigned and the header written at the offset. */
  function IntoHeader(k: EarlyHeaders.HeaderKind, bo: ByteOrder, counted: map<string, Value>,
                      w: seq<byte>, offset: nat, size: nat): (r: IntoRun)
    requires size >= EarlyHeaders.HeaderSize(k)
    ensures |r.buffer| == |w|
  {
    var hs := EarlyHeaders.HeaderSize(k);
    var sized := counted["data_size" := Int(size - hs)];
    var hb := EarlyHeaders.HeaderBytes(k, bo, sized);
    if hb.Err? then IntoRun(Err(hb.error), w, sized, Some(size))
    else if offset + hs > |w| then IntoRun(Err(StructError), w, sized, Some(size))
    else IntoRun(Ok(()), EarlyBaseTypes.Overwrite(w, offset, hb.value), sized, Some(size))
  }

  /** What a header written by `pack_into` records: the header object's
    * final attributes, with the bytes written after it as its data size. */
  predicate WroteHeader(k: EarlyHeaders.HeaderKind, bo: ByteOrder, offset: nat, r: IntoRun)
  {
    r.size.Some? && r.size.value >= EarlyHeaders.HeaderSize(k)
    && "data_size" in r.attributes && r.attributes["data_size"] == Int(r.size.value - EarlyHeaders.HeaderSize(k))
    && EarlyHeaders.HeaderBytes(k, bo, r.attributes).Ok? && offset + EarlyHeaders.HeaderSize(k) <= |r.buffer|
    && r.buffer[offset..offset + EarlyHeaders.HeaderSize(k)] == EarlyHeaders.HeaderBytes(k, bo, r.attributes).value
  }

  /** The header step of `pack_into` keeps the length and writes the
    * header its final attributes describe at the offset. */
  lemma {:induction false} IntoHeaderWrites(k: EarlyHeaders.HeaderKind, bo: ByteOrder, counted: map<string, Value>,
                                            w: seq<byte>, offset: nat, size: nat)
    requires size >= EarlyHeaders.HeaderSize(k)
    ensures var r := IntoHeader(k, bo, counted, w, offset, size);
      r.outcome.Ok? ==> (EarlyHeaders.LoopCount(k, r.attributes) == EarlyHeaders.LoopCount(k, counted) && WroteHeader(k, bo, offset, r))
  {
    var hs := EarlyHeaders.HeaderSize(k);
    SizedLoopCount(k, counted, size - hs);
    var hb := EarlyHeaders.HeaderBytes(k, bo, counted["data_size" := Int(size - hs)]);
    if hb.Ok? && offset + hs <= |w| {
      EarlyBaseTypes.OverwriteTail(w, offset, hb.value);
    }
  }

  /** `pack_into` once the length is assigned keeps the length and writes
    * the header its final attributes describe at the offset. */
  lemma {:induction false} IntoCountedHeader(k: EarlyHeaders.HeaderKind, bo: ByteOrder, elem: Codec, counted: map<string, Value>,
                                             items: seq<Value>, b: seq<byte>, offset: nat)
    ensures var r := IntoCounted(k, bo, elem, counted, items, b, offset);
      r.outcome.Ok? ==> (EarlyHeaders.LoopCount(k, r.attributes) == EarlyHeaders.LoopCount(k, counted) && WroteHeader(k, bo, offset, r))
  {
    hide *;
    IntoCountedShape(k, bo, elem, counted, items, b, offset);
    var w := WriteItems(b, elem, items, 0, offset + EarlyHeaders.HeaderSize(k));
    if w.outcome.Ok? {
      IntoHeaderWrites(k, bo, counted, w.buffer, offset, w.pos - offset);
    }
  }

  /** `pack_into` once the length is assigned: the items' writes, then the
    * header step unless they failed. */
  lemma {:induction false} IntoCountedShape(k: EarlyHeaders.HeaderKind, bo: ByteOrder, elem: Codec, counted: map<string, Value>,
                                            items: seq<Value>, b: seq<byte>, offset: nat)
    ensures var w := WriteItems(b, elem, items, 0, offset + EarlyHeaders.HeaderSize(k));
      w.pos >= offset + EarlyHeaders.HeaderSize(k)
      && IntoCounted(k, bo, elem, counted, items, b, offset)
        == if w.outcome.Err? then IntoRun(Err(w.outcome.error), w.buffer, counted, Some(w.pos - offset))
           else IntoHeader(k, bo, counted, w.buffer, offset, w.pos - offset)
  {
    hide Arrays.PackItems, WriteItems, PackWith, EarlyBaseTypes.Overwrite, Records.Assigned, IntoHeader;
  }

  /** `pack_into` keeps the length of the items it was given in the header
    * object and writes the header its final attributes describe at the
    * offset, the bytes after it counted as its data size. */
  lemma {:induction false} PackIntoWritesHeader(k: EarlyHeaders.HeaderKind, bo: ByteOrder, elem: Codec, attributes: map<string, Value>,
                                                values: seq<Value>, b: seq<byte>, offset: nat)
    ensures var r := StructuredPackIntoRun(k, bo, elem, attributes, values, b, offset);
      r.outcome.Ok? ==> (|values| >= 1 && Elements(values[0]).Ok?
        && EarlyHeaders.LoopCount(k, r.attributes) == Ok(|Elements(values[0]).value|) && WroteHeader(k, bo, offset, r))
  {
    if |values| >= 1 && Elements(values[0]).Ok? {
      var items := Elements(values[0]).value;
      var counted := EarlyHeaders.CountAssigned(k, attributes, |items|);
      if counted.Ok? {
        IntoCountedHeader(k, bo, elem, counted.value, items, b, offset);
      }
    }
  }

  /** The bytes the `unpack` loop consumes before it stops, at its first
    * failing item or after `n` items. */
  function ItemsRead(c: Codec, obj: Value, bs: seq<byte>, pos: nat, n: nat): (r: nat)
    decreases n
  {
    if n == 0 then 0
    else
      var head := UnpackWith(c, obj, Drop(bs, pos));
      if head.Err? then 0 else head.value.size + ItemsRead(c, obj, bs, pos + head.value.size, n - 1)
  }

  /** When every item reads, the loop consumes what the items' reads add up to. */
  lemma {:induction false} ItemsReadSize(c: Codec, obj: Value, bs: seq<byte>, pos: nat, n: nat)
    ensures Arrays.UnpackItems(c, obj, bs, pos, n).Ok? ==>
      ItemsRead(c, obj, bs, pos, n) == Arrays.UnpackItems(c, obj, bs, pos, n).value.size
    decreases n
  {
    if n > 0 {
      var head := UnpackWith(c, obj, Drop(bs, pos));
      if head.Ok? {
        ItemsReadSize(c, obj, bs, pos + head.value.size, n - 1);
      }
    }
  }

  /** The same for the `unpack_from` loop. */
  function ItemsReadFrom(c: Codec, obj: Value, bs: seq<byte>, pos: nat, n: nat): (r: nat)
    decreases n
  {
    if n == 0 then 0
    else
      var head := UnpackFromWith(c, obj, bs, pos);
      if head.Err? then 0 else head.value.size + ItemsReadFrom(c, obj, bs, pos + head.value.size, n - 1)
  }

  lemma {:induction false} ItemsReadFromSize(c: Codec, obj: Value, bs: seq<byte>, pos: nat, n: nat)
    ensures Arrays.UnpackItemsFrom(c, obj, bs, pos, n).Ok? ==>
      ItemsReadFrom(c, obj, bs, pos, n) == Arrays.UnpackItemsFrom(c, obj, bs, pos, n).value.size
    decreases n
  {
    if n > 0 {
      var head := UnpackFromWith(c, obj, bs, pos);
      if head.Ok? {
        ItemsReadFromSize(c, obj, bs, pos + head.value.size, n - 1);
      }
    }
  }

  /** The end of `unpack` and `unpack_from` (237-240, 250-253): the items
    * read, with `size` at the bytes consumed, go through the header's data
    * size check. */
  function Checked(k: EarlyHeaders.HeaderKind, attrs: map<string, Value>, items: Result<Unpacked>, size: nat): (r: ReadRun)
    ensures r.attributes == attrs && r.size == Some(size)
    ensures r.outcome.Ok? <==> items.Ok? && EarlyHeaders.ValidateDataSize(k, attrs, items.value.size).Ok?
    ensures r.outcome.Ok? ==> r.outcome.value == Unpacked([List(items.value.values)], size)
  {
    if items.Err? then ReadRun(Err(items.error), attrs, Some(size))
    else
      var v := EarlyHeaders.ValidateDataSize(k, attrs, items.value.size);
      if v.Err? then ReadRun(Err(v.error), attrs, Some(size))
      else ReadRun(Ok(Unpacked([List(items.value.values)], size)), attrs, Some(size))
  }

  /** `unpack` (229-240): the header reads the front of the buffer, then
    * as many items as its length follow one another, each read from the
    * tail after the last, and the data size read is checked; `size`
    * counts every byte consumed up to a failure. */
  function StructuredUnpackRun(k: EarlyHeaders.HeaderKind, bo: ByteOrder, elem: Codec,
                               attributes: map<string, Value>, bs: seq<byte>): (r: ReadRun)
  {
    var h := Structs.StructUnpack(EarlyHeaders.HeaderStruct(k, bo), bs);
    if h.Err? then ReadRun(Err(h.error), attributes, None)
    else
      var attrs := Records.Assigned(attributes, EarlyHeaders.Attrs(k), h.value.values);
      var hs := EarlyHeaders.HeaderSize(k);
      var n := EarlyHeaders.LoopCount(k, attrs);
      if n.Err? then ReadRun(Err(n.error), attrs, Some(hs))
      else
        Checked(k, attrs, Arrays.UnpackItems(elem, NoneValue, bs, hs, n.value),
          hs + ItemsRead(elem, NoneValue, bs, hs, n.value))
  }

  /** `unpack_from` (242-253): the same, every read at an offset into the
    * whole buffer. */
  function StructuredUnpackFromRun(k: EarlyHeaders.HeaderKind, bo: ByteOrder, elem: Codec,
                                   attributes: map<string, Value>, bs: seq<byte>, off: nat): (r: ReadRun)
  {
    var h := Structs.StructUnpackFrom(EarlyHeaders.HeaderStruct(k, bo), bs, off);
    if h.Err? then ReadRun(Err(h.error), attributes, None)
    else
      var attrs := Records.Assigned(attributes, EarlyHeaders.Attrs(k), h.value.values);
      var hs := EarlyHeaders.HeaderSize(k);
      var n := EarlyHeaders.LoopCount(k, attrs);
      if n.Err? then ReadRun(Err(n.error), attrs, Some(hs))
      else
        Checked(k, attrs, Arrays.UnpackItemsFrom(elem, NoneValue, bs, off + hs, n.value),
          hs + ItemsReadFrom(elem, NoneValue, bs, off + hs, n.value))
  }

  /** A failed header read leaves the header as it was and `size` unset; a
    * successful unpack is one list, read in at least the header's bytes,
    * whose data size the header accepts, with `size` at the bytes read. */
  lemma {:induction false} UnpackRunOutcome(k: EarlyHeaders.HeaderKind, bo: ByteOrder, elem: Codec,
                                            attributes: map<string, Value>, bs: seq<byte>)
    ensures var r := StructuredUnpackRun(k, bo, elem, attributes, bs);
      (Structs.StructUnpack(EarlyHeaders.HeaderStruct(k, bo), bs).Err? ==>
        r.outcome.Err? && r.attributes == attributes && r.size.None?)
      && (r.outcome.Ok? ==> (r.size == Some(r.outcome.value.size) && r.outcome.value.size >= EarlyHeaders.HeaderSize(k)
        && |r.outcome.value.values| == 1 && r.outcome.value.values[0].List?
        && EarlyHeaders.ValidateDataSize(k, r.attributes, r.outcome.value.size - EarlyHeaders.HeaderSize(k)) == Ok(())))
  {
    hide *;
    var h := Structs.StructUnpack(EarlyHeaders.HeaderStruct(k, bo), bs);
    if h.Err? {
      RunHeaderErr(k, bo, elem, attributes, bs, h);
    } else {
      var attrs := Records.Assigned(attributes, EarlyHeaders.Attrs(k), h.value.values);
      var n := EarlyHeaders.LoopCount(k, attrs);
      if n.Err? {
        RunCountErr(k, bo, elem, attributes, bs, h, attrs);
      } else {
        var hs := EarlyHeaders.HeaderSize(k);
        RunAfterHeader(k, bo, elem, attributes, bs, h.value, attrs, n.value);
        ItemsReadSize(elem, NoneValue, bs, hs, n.value);
      }
    }
  }

  // ---- what the structured array promises ----

  /** Once the length is assigned, the header object holds what the header
    * class packs for that length and, in a size-checked header, the data
    * size it holds. */
  lemma {:induction false} CountedLookup(k: EarlyHeaders.HeaderKind, attributes: map<string, Value>, count: nat, ds: nat)
    requires EarlyHeaders.IsStatic(k) ==> count == k.count
    requires EarlyHeaders.TwoPass(k) ==> "data_size" in attributes && attributes["data_size"] == Int(ds)
    ensures EarlyHeaders.CountAssigned(k, attributes, count).Ok?
    ensures Records.Lookup(EarlyHeaders.CountAssigned(k, attributes, count).value, EarlyHeaders.Attrs(k))
      == Ok(EarlyHeaders.PackedValues(k, count, ds))
  {
    var counted := EarlyHeaders.CountAssigned(k, attributes, count).value;
    var l := Records.Lookup(counted, EarlyHeaders.Attrs(k));
    Records.LookupSpec(counted, EarlyHeaders.Attrs(k));
    assert "count" != "data_size";
    assert l.Ok?;
    assert l.value == EarlyHeaders.PackedValues(k, count, ds);
  }

  /** Assigning the data size before or after the length. */
  lemma {:induction false} CountThenSize(k: EarlyHeaders.HeaderKind, attributes: map<string, Value>, count: int, d: int)
    requires EarlyHeaders.CountAssigned(k, attributes, count).Ok?
    ensures EarlyHeaders.CountAssigned(k, attributes["data_size" := Int(d)], count)
      == Ok(EarlyHeaders.CountAssigned(k, attributes, count).value["data_size" := Int(d)])
  {
    assert "count" != "data_size";
    if !EarlyHeaders.IsStatic(k) {
      assert attributes["data_size" := Int(d)]["count" := Int(count)] == attributes["count" := Int(count)]["data_size" := Int(d)];
    }
  }

  /** The header object after `pack_into` has assigned the length and the
    * data size holds what the header class packs for them. */
  lemma {:induction false} SizedLookup(k: EarlyHeaders.HeaderKind, attributes: map<string, Value>, count: nat, ds: nat)
    requires EarlyHeaders.IsStatic(k) ==> count == k.count
    ensures EarlyHeaders.CountAssigned(k, attributes, count).Ok?
    ensures Records.Lookup(EarlyHeaders.CountAssigned(k, attributes, count).value["data_size" := Int(ds)], EarlyHeaders.Attrs(k))
      == Ok(EarlyHeaders.PackedValues(k, count, ds))
  {
    CountedLookup(k, attributes["data_size" := Int(ds)], count, ds);
    CountThenSize(k, attributes, count, ds);
  }

  /** A header object holding fitting values writes what the header class
    * packs for them. */
  lemma {:induction false} HeaderBytesOf(k: EarlyHeaders.HeaderKind, bo: ByteOrder, attrs: map<string, Value>, count: nat, ds: nat)
    requires Records.Lookup(attrs, EarlyHeaders.Attrs(k)) == Ok(EarlyHeaders.PackedValues(k, count, ds))
    requires EarlyHeaders.Fits(k, count, ds)
    ensures var p := Structs.StructPack(EarlyHeaders.HeaderStruct(k, bo), EarlyHeaders.PackedValues(k, count, ds));
      p.Ok? && |p.value.data| == EarlyHeaders.HeaderSize(k) && EarlyHeaders.HeaderBytes(k, bo, attrs) == Ok(p.value.data)
  {
    EarlyHeaders.HeaderRoundTrip(k, bo, count, ds, map[], []);
    EarlyHeaders.HeaderLayout(k, bo);
  }

  /** A header for `|items|` items of `body.size` bytes, then the items,
    * then anything: a header object in any state reads the items back. */
  lemma {:induction false} ReadsBack(k: EarlyHeaders.HeaderKind, bo: ByteOrder, elem: Codec, other: map<string, Value>,
                                     items: seq<Value>, rest: seq<byte>)
    requires forall x :: x in items ==> Arrays.ItemRoundTrips(elem, NoneValue, x)
    requires var body := Arrays.PackItems(elem, NoneValue, items, 0);
      body.Ok? && EarlyHeaders.Fits(k, |items|, body.value.size)
    ensures var body := Arrays.PackItems(elem, NoneValue, items, 0).value;
      var hdr := Structs.StructPack(EarlyHeaders.HeaderStruct(k, bo), EarlyHeaders.PackedValues(k, |items|, body.size));
      hdr.Ok? && |hdr.value.data| == EarlyHeaders.HeaderSize(k)
      && StructuredUnpackRun(k, bo, elem, other, hdr.value.data + body.data + rest).outcome
           == Ok(Unpacked([List(items)], EarlyHeaders.HeaderSize(k) + body.size))
  {
    hide *;
    var body := Arrays.PackItems(elem, NoneValue, items, 0).value;
    var st := EarlyHeaders.HeaderStruct(k, bo);
    var vs := EarlyHeaders.PackedValues(k, |items|, body.size);
    var hs := EarlyHeaders.HeaderSize(k);
    EarlyHeaders.HeaderRoundTrip(k, bo, |items|, body.size, other, body.data + rest);
    EarlyHeaders.HeaderLayout(k, bo);
    var hd := Structs.StructPack(st, vs).value.data;
    ConcatAssoc(hd, body.data, rest);
    var bs := hd + body.data + rest;
    assert Structs.StructUnpack(st, bs) == Ok(Unpacked(vs, hs));
    var attrs := Records.Assigned(other, EarlyHeaders.Attrs(k), vs);
    assert EarlyHeaders.LoopCount(k, attrs) == Ok(|items|);
    Arrays.ItemsRoundTrip(elem, NoneValue, items, 0, hd, rest);
    assert items[0..] == items;
    var got := Arrays.UnpackItems(elem, NoneValue, bs, hs, |items|);
    assert got == Ok(Unpacked(items, body.size));
    assert EarlyHeaders.ValidateDataSize(k, attrs, body.size).Ok?;
    RunOf(k, bo, elem, other, bs, Unpacked(vs, hs), attrs, |items|, Unpacked(items, body.size));
  }

  /** `unpack` of a buffer whose header, items and data size all read. */
  lemma {:induction false} RunOf(k: EarlyHeaders.HeaderKind, bo: ByteOrder, elem: Codec, other: map<string, Value>,
                                 bs: seq<byte>, h: Unpacked, attrs: map<string, Value>, n: nat, got: Unpacked)
    requires Structs.StructUnpack(EarlyHeaders.HeaderStruct(k, bo), bs) == Ok(h)
    requires attrs == Records.Assigned(other, EarlyHeaders.Attrs(k), h.values)
    requires EarlyHeaders.LoopCount(k, attrs) == Ok(n)
    requires Arrays.UnpackItems(elem, NoneValue, bs, EarlyHeaders.HeaderSize(k), n) == Ok(got)
    requires EarlyHeaders.ValidateDataSize(k, attrs, got.size).Ok?
    ensures StructuredUnpackRun(k, bo, elem, other, bs).outcome
      == Ok(Unpacked([List(got.values)], EarlyHeaders.HeaderSize(k) + got.size))
  {
    hide *;
    var hs := EarlyHeaders.HeaderSize(k);
    assert StructuredUnpackRun(k, bo, elem, other, bs)
      == Checked(k, attrs, Ok(got), hs + ItemsRead(elem, NoneValue, bs, hs, n)) by {
      RunAfterHeader(k, bo, elem, other, bs, h, attrs, n);
    }
    ItemsReadSize(elem, NoneValue, bs, hs, n);
  }

  /** `pack_write` after the length is assigned, for a header object whose
    * writes succeed: the last header written, then the items. */
  lemma {:induction false} PackCountedOf(k: EarlyHeaders.HeaderKind, bo: ByteOrder, elem: Codec, counted: map<string, Value>,
                                         items: seq<Value>, body: Packed, hd: seq<byte>)
    requires Arrays.PackItems(elem, NoneValue, items, 0) == Ok(body)
    requires EarlyHeaders.HeaderBytes(k, bo, counted).Ok?
    requires !EarlyHeaders.TwoPass(k) ==> EarlyHeaders.HeaderBytes(k, bo, counted) == Ok(hd)
    requires EarlyHeaders.TwoPass(k) ==> EarlyHeaders.HeaderBytes(k, bo, counted["data_size" := Int(body.size)]) == Ok(hd)
    ensures PackCounted(k, bo, elem, counted, items).outcome == Ok(Packed(hd + body.data, EarlyHeaders.HeaderSize(k) + body.size))
  {
    if EarlyHeaders.TwoPass(k) {
      PackTwoWrites(k, bo, elem, counted, items, body, hd);
    } else {
      PackOneWrite(k, bo, elem, counted, items, body, hd);
    }
  }

  /** The one write of a header without a data size. */
  lemma {:induction false} PackOneWrite(k: EarlyHeaders.HeaderKind, bo: ByteOrder, elem: Codec, counted: map<string, Value>,
                                        items: seq<Value>, body: Packed, hd: seq<byte>)
    requires !EarlyHeaders.TwoPass(k)
    requires Arrays.PackItems(elem, NoneValue, items, 0) == Ok(body)
    requires EarlyHeaders.HeaderBytes(k, bo, counted) == Ok(hd)
    ensures PackCounted(k, bo, elem, counted, items).outcome == Ok(Packed(hd + body.data, EarlyHeaders.HeaderSize(k) + body.size))
  {
  }

  /** The second of the two writes of a size-checked header. */
  lemma {:induction false} PackTwoWrites(k: EarlyHeaders.HeaderKind, bo: ByteOrder, elem: Codec, counted: map<string, Value>,
                                         items: seq<Value>, body: Packed, hd: seq<byte>)
    requires EarlyHeaders.TwoPass(k)
    requires Arrays.PackItems(elem, NoneValue, items, 0) == Ok(body)
    requires EarlyHeaders.HeaderBytes(k, bo, counted).Ok?
    requires EarlyHeaders.HeaderBytes(k, bo, counted["data_size" := Int(body.size)]) == Ok(hd)
    ensures PackCounted(k, bo, elem, counted, items).outcome == Ok(Packed(hd + body.data, EarlyHeaders.HeaderSize(k) + body.size))
  {
    hide Arrays.PackItems, PackWith, EarlyHeaders.HeaderBytes, Records.Assigned, EarlyHeaders.TwoPass;
  }

  /** `pack` of fitting items writes the header for their length and byte
    * count, then the items, whatever the header object held before (a
    * size-checked header already holding a fitting data size). */
  lemma {:induction false} StructuredPacks(k: EarlyHeaders.HeaderKind, bo: ByteOrder, elem: Codec,
                                           attributes: map<string, Value>, items: seq<Value>)
    requires var body := Arrays.PackItems(elem, NoneValue, items, 0);
      body.Ok? && EarlyHeaders.Fits(k, |items|, body.value.size)
    requires EarlyHeaders.TwoPass(k) ==>
      "data_size" in attributes && attributes["data_size"].Int?
      && 0 <= attributes["data_size"].i < Pow256(EarlyStrings.SizeWidth(k.sizeType))
    ensures var body := Arrays.PackItems(elem, NoneValue, items, 0).value;
      var hdr := Structs.StructPack(EarlyHeaders.HeaderStruct(k, bo), EarlyHeaders.PackedValues(k, |items|, body.size));
      hdr.Ok?
      && StructuredPackRun(k, bo, elem, attributes, [List(items)]).outcome
           == Ok(Packed(hdr.value.data + body.data, EarlyHeaders.HeaderSize(k) + body.size))
  {
    hide Arrays.PackItems, PackWith, Structs.StructPack, EarlyHeaders.HeaderBytes, PyStruct.Pack, PyStruct.Expand, PackCounted;
    var n := |items|;
    var body := Arrays.PackItems(elem, NoneValue, items, 0).value;
    var ds0: nat := if EarlyHeaders.TwoPass(k) then attributes["data_size"].i else body.size;
    CountedLookup(k, attributes, n, ds0);
    SizedLookup(k, attributes, n, body.size);
    var counted := EarlyHeaders.CountAssigned(k, attributes, n).value;
    var first := Structs.StructPack(EarlyHeaders.HeaderStruct(k, bo), EarlyHeaders.PackedValues(k, n, ds0));
    assert first.Ok? && EarlyHeaders.HeaderBytes(k, bo, counted) == Ok(first.value.data) by {
      HeaderBytesOf(k, bo, counted, n, ds0);
    }
    var hdr := Structs.StructPack(EarlyHeaders.HeaderStruct(k, bo), EarlyHeaders.PackedValues(k, n, body.size));
    assert hdr.Ok? && EarlyHeaders.HeaderBytes(k, bo, counted["data_size" := Int(body.size)]) == Ok(hdr.value.data) by {
      HeaderBytesOf(k, bo, counted["data_size" := Int(body.size)], n, body.size);
    }
    assert PackCounted(k, bo, elem, counted, items).outcome
      == Ok(Packed(hdr.value.data + body.data, EarlyHeaders.HeaderSize(k) + body.size)) by {
      PackCountedOf(k, bo, elem, counted, items, body, hdr.value.data);
    }
    assert StructuredPackRun(k, bo, elem, attributes, [List(items)]) == PackCounted(k, bo, elem, counted, items);
  }

  /** `pack` then `unpack` gives the items back, whatever follows them and
    * whatever state the reading header object is in, provided the items
    * round-trip, their length and byte count fit the header, and a
    * size-checked header already holds a fitting data size for the first
    * of its two writes. */
  lemma {:induction false} StructuredRoundTrip(k: EarlyHeaders.HeaderKind, bo: ByteOrder, elem: Codec,
                            attributes: map<string, Value>, items: seq<Value>,
                            other: map<string, Value>, rest: seq<byte>)
    requires forall x :: x in items ==> Arrays.ItemRoundTrips(elem, NoneValue, x)
    requires var body := Arrays.PackItems(elem, NoneValue, items, 0);
      body.Ok? && EarlyHeaders.Fits(k, |items|, body.value.size)
    requires EarlyHeaders.TwoPass(k) ==>
      "data_size" in attributes && attributes["data_size"].Int?
      && 0 <= attributes["data_size"].i < Pow256(EarlyStrings.SizeWidth(k.sizeType))
    ensures var run := StructuredPackRun(k, bo, elem, attributes, [List(items)]);
      run.outcome.Ok?
      && StructuredUnpackRun(k, bo, elem, other, run.outcome.value.data + rest).outcome
           == Ok(Unpacked([List(items)], run.outcome.value.size))
  {
    hide *;
    StructuredPacks(k, bo, elem, attributes, items);
    ReadsBack(k, bo, elem, other, items, rest);
  }

  /** The `pack_into` loop writes the items' bytes one after another from
    * `pos` on when they fit. */
  lemma {:induction false} WriteItemsPacks(b: seq<byte>, c: Codec, items: seq<Value>, k: nat, pos: nat)
    requires k <= |items|
    requires forall x :: x in items ==> Arrays.ItemRoundTrips(c, NoneValue, x)
    requires Arrays.PackItems(c, NoneValue, items, k).Ok? && pos + Arrays.PackItems(c, NoneValue, items, k).value.size <= |b|
    ensures var body := Arrays.PackItems(c, NoneValue, items, k).value;
      |body.data| == body.size
      && WriteItems(b, c, items, k, pos) == Progress(Ok(()), pos + body.size, EarlyBaseTypes.Overwrite(b, pos, body.data))
    decreases |items| - k
  {
    Arrays.ItemsRoundTrip(c, NoneValue, items, k, [], []);
    if k < |items| {
      var x := items[k];
      assert x in items;
      var p := PackWith(c, NoneValue, [x]).value;
      var tail := Arrays.PackItems(c, NoneValue, items, k + 1).value;
      Arrays.ItemsRoundTrip(c, NoneValue, items, k + 1, [], []);
      WriteItemsPacks(EarlyBaseTypes.Overwrite(b, pos, p.data), c, items, k + 1, pos + p.size);
      EarlyBaseTypes.OverwriteAppend(b, pos, p.data, tail.data);
    } else {
      assert b[..pos] + [] + b[pos..] == b;
    }
  }

  /** `pack_into` after the length is assigned, with fitting items and room
    * in the buffer: the items go after the header's place, then the
    * header for them in front. */
  lemma {:induction false} IntoCountedOf(k: EarlyHeaders.HeaderKind, bo: ByteOrder, elem: Codec, counted: map<string, Value>,
                      items: seq<Value>, b: seq<byte>, offset: nat, hd: seq<byte>)
    requires forall x :: x in items ==> Arrays.ItemRoundTrips(elem, NoneValue, x)
    requires var body := Arrays.PackItems(elem, NoneValue, items, 0);
      body.Ok? && offset + EarlyHeaders.HeaderSize(k) + body.value.size <= |b|
      && EarlyHeaders.HeaderBytes(k, bo, counted["data_size" := Int(body.value.size)]) == Ok(hd)
      && |hd| == EarlyHeaders.HeaderSize(k)
    ensures var body := Arrays.PackItems(elem, NoneValue, items, 0).value;
      IntoCounted(k, bo, elem, counted, items, b, offset)
        == IntoRun(Ok(()), EarlyBaseTypes.Written(b, offset, hd + body.data),
                   counted["data_size" := Int(body.size)], Some(EarlyHeaders.HeaderSize(k) + body.size))
  {
    hide *;
    var hs := EarlyHeaders.HeaderSize(k);
    var body := Arrays.PackItems(elem, NoneValue, items, 0).value;
    WriteItemsPacks(b, elem, items, 0, offset + hs);
    var w := EarlyBaseTypes.Overwrite(b, offset + hs, body.data);
    EarlyBaseTypes.OverwriteBefore(b, offset, offset + hs, hd, body.data);
    IntoHeaderStep(k, bo, elem, counted, items, b, offset, w, body.size, hd);
  }

  /** `pack_into` once the items' writes have succeeded, leaving the buffer
    * `w` and reaching `pos`: the header step from there. */
  lemma {:induction false} IntoCountedWritten(k: EarlyHeaders.HeaderKind, bo: ByteOrder, elem: Codec, counted: map<string, Value>,
                                              items: seq<Value>, b: seq<byte>, offset: nat, w: seq<byte>, pos: nat)
    requires WriteItems(b, elem, items, 0, offset + EarlyHeaders.HeaderSize(k)) == Progress(Ok(()), pos, w)
    ensures pos >= offset + EarlyHeaders.HeaderSize(k)
    ensures IntoCounted(k, bo, elem, counted, items, b, offset) == IntoHeader(k, bo, counted, w, offset, pos - offset)
  {
    hide Arrays.PackItems, WriteItems, EarlyHeaders.HeaderBytes, PackWith, EarlyBaseTypes.Overwrite, Records.Assigned;
  }

  /** The three ways out of the header step of `pack_into`. */
  lemma {:induction false} IntoHeaderExits(k: EarlyHeaders.HeaderKind, bo: ByteOrder, counted: map<string, Value>,
                                           w: seq<byte>, offset: nat, size: nat,
                                           sized: map<string, Value>, hb: Result<seq<byte>>)
    requires size >= EarlyHeaders.HeaderSize(k)
    requires sized == counted["data_size" := Int(size - EarlyHeaders.HeaderSize(k))]
    requires hb == EarlyHeaders.HeaderBytes(k, bo, sized)
    ensures hb.Err? ==> IntoHeader(k, bo, counted, w, offset, size) == IntoRun(Err(hb.error), w, sized, Some(size))
    ensures hb.Ok? && offset + EarlyHeaders.HeaderSize(k) > |w| ==>
      IntoHeader(k, bo, counted, w, offset, size) == IntoRun(Err(StructError), w, sized, Some(size))
    ensures hb.Ok? && offset + EarlyHeaders.HeaderSize(k) <= |w| ==>
      IntoHeader(k, bo, counted, w, offset, size) == IntoRun(Ok(()), EarlyBaseTypes.Overwrite(w, offset, hb.value), sized, Some(size))
  {
    hide Arrays.PackItems, WriteItems, EarlyHeaders.HeaderBytes, PackWith, EarlyBaseTypes.Overwrite, Records.Assigned;
  }

  /** The header step of `pack_into`, once the items' writes have left the
    * buffer `w` and reached `size` bytes past the header's place. */
  lemma {:induction false} IntoHeaderStep(k: EarlyHeaders.HeaderKind, bo: ByteOrder, elem: Codec, counted: map<string, Value>,
                                          items: seq<Value>, b: seq<byte>, offset: nat, w: seq<byte>, size: nat, hd: seq<byte>)
    requires WriteItems(b, elem, items, 0, offset + EarlyHeaders.HeaderSize(k))
      == Progress(Ok(()), offset + EarlyHeaders.HeaderSize(k) + size, w)
    requires EarlyHeaders.HeaderBytes(k, bo, counted["data_size" := Int(size)]) == Ok(hd)
    requires offset + EarlyHeaders.HeaderSize(k) <= |w|
    ensures IntoCounted(k, bo, elem, counted, items, b, offset)
      == IntoRun(Ok(()), EarlyBaseTypes.Overwrite(w, offset, hd), counted["data_size" := Int(size)],
                 Some(EarlyHeaders.HeaderSize(k) + size))
  {
    hide Arrays.PackItems, WriteItems, EarlyHeaders.HeaderBytes, PackWith, EarlyBaseTypes.Overwrite, Records.Assigned;
    assert IntoCounted(k, bo, elem, counted, items, b, offset)
      == IntoHeader(k, bo, counted, w, offset, EarlyHeaders.HeaderSize(k) + size);
  }

  /** `pack_into` with fitting items and room in the buffer succeeds from
    * any header state (it assigns the length and the data size itself)
    * and writes the header then the items at the offset. */
  lemma {:induction false} PackIntoRoundTrip(k: EarlyHeaders.HeaderKind, bo: ByteOrder, elem: Codec,
                          attributes: map<string, Value>, items: seq<Value>, b: seq<byte>, offset: nat)
    requires forall x :: x in items ==> Arrays.ItemRoundTrips(elem, NoneValue, x)
    requires var body := Arrays.PackItems(elem, NoneValue, items, 0);
      body.Ok? && EarlyHeaders.Fits(k, |items|, body.value.size)
      && offset + EarlyHeaders.HeaderSize(k) + body.value.size <= |b|
    ensures var body := Arrays.PackItems(elem, NoneValue, items, 0).value;
      var hdr := Structs.StructPack(EarlyHeaders.HeaderStruct(k, bo), EarlyHeaders.PackedValues(k, |items|, body.size));
      var run := StructuredPackIntoRun(k, bo, elem, attributes, [List(items)], b, offset);
      hdr.Ok? && run.outcome == Ok(()) && run.size == Some(EarlyHeaders.HeaderSize(k) + body.size)
      && run.buffer == EarlyBaseTypes.Written(b, offset, hdr.value.data + body.data)
  {
    var n := |items|;
    var body := Arrays.PackItems(elem, NoneValue, items, 0).value;
    assert EarlyHeaders.IsStatic(k) ==> n == k.count;
    SizedLookup(k, attributes, n, body.size);
    var counted := EarlyHeaders.CountAssigned(k, attributes, n).value;
    HeaderBytesOf(k, bo, counted["data_size" := Int(body.size)], n, body.size);
    var hdr := Structs.StructPack(EarlyHeaders.HeaderStruct(k, bo), EarlyHeaders.PackedValues(k, n, body.size)).value;
    IntoCountedOf(k, bo, elem, counted, items, b, offset, hdr.data);
    assert StructuredPackIntoRun(k, bo, elem, attributes, [List(items)], b, offset)
      == IntoCounted(k, bo, elem, counted, items, b, offset);
  }

  /** The `unpack_from` loop reads what the `unpack` loop reads from the
    * buffer's tail. */
  lemma {:induction false} ItemsReadFromConsistent(c: Codec, obj: Value, bs: seq<byte>, off: nat, pos: nat, n: nat)
    requires Compounds.OffsetConsistent(c)
    ensures ItemsReadFrom(c, obj, bs, off + pos, n) == ItemsRead(c, obj, Drop(bs, off), pos, n)
    decreases n
  {
    if n > 0 {
      DropDrop(bs, off, pos);
      var head := UnpackFromWith(c, obj, bs, off + pos);
      assert head == UnpackWith(c, obj, Drop(Drop(bs, off), pos));
      if head.Ok? {
        ItemsReadFromConsistent(c, obj, bs, off, pos + head.value.size, n - 1);
      }
    }
  }

  /** With items whose `unpack_from` reads what `unpack` reads from the
    * tail, `unpack_from` at an offset within the buffer is `unpack` of the
    * tail: same outcome, same header state, same `size`. */
  lemma {:induction false} StructuredOffsetConsistent(k: EarlyHeaders.HeaderKind, bo: ByteOrder, elem: Codec,
                                   attributes: map<string, Value>, bs: seq<byte>, off: nat)
    requires Compounds.OffsetConsistent(elem) && off <= |bs|
    ensures StructuredUnpackFromRun(k, bo, elem, attributes, bs, off) == StructuredUnpackRun(k, bo, elem, attributes, Drop(bs, off))
  {
    var st := EarlyHeaders.HeaderStruct(k, bo);
    DropIsSuffix(bs, off);
    Semantics.StructUnpackFromIsUnpack(st, bs, off);
    var h := Structs.StructUnpack(st, Drop(bs, off));
    assert Structs.StructUnpackFrom(st, bs, off) == h;
    if h.Err? {
      RunHeaderErr(k, bo, elem, attributes, Drop(bs, off), h);
      FromRunHeaderErr(k, bo, elem, attributes, bs, off, h);
    } else {
      var attrs := Records.Assigned(attributes, EarlyHeaders.Attrs(k), h.value.values);
      var n := EarlyHeaders.LoopCount(k, attrs);
      if n.Ok? {
        ItemsOffsetConsistent(k, bo, elem, attributes, bs, off, h, attrs, n.value);
      } else {
        RunCountErr(k, bo, elem, attributes, Drop(bs, off), h, attrs);
        FromRunCountErr(k, bo, elem, attributes, bs, off, h, attrs);
      }
    }
  }

  /** `unpack_from` and `unpack` of the tail once the header is read and
    * has a length. */
  lemma {:induction false} ItemsOffsetConsistent(k: EarlyHeaders.HeaderKind, bo: ByteOrder, elem: Codec,
                                                 attributes: map<string, Value>, bs: seq<byte>, off: nat,
                                                 h: Result<Unpacked>, attrs: map<string, Value>, n: nat)
    requires Compounds.OffsetConsistent(elem) && off <= |bs|
    requires h == Structs.StructUnpack(EarlyHeaders.HeaderStruct(k, bo), Drop(bs, off)) && h.Ok?
    requires h == Structs.StructUnpackFrom(EarlyHeaders.HeaderStruct(k, bo), bs, off)
    requires attrs == Records.Assigned(attributes, EarlyHeaders.Attrs(k), h.value.values)
    requires EarlyHeaders.LoopCount(k, attrs) == Ok(n)
    ensures StructuredUnpackFromRun(k, bo, elem, attributes, bs, off) == StructuredUnpackRun(k, bo, elem, attributes, Drop(bs, off))
  {
    hide *;
    FromRunAfterHeader(k, bo, elem, attributes, bs, off, h.value, attrs, n);
    RunAfterHeader(k, bo, elem, attributes, Drop(bs, off), h.value, attrs, n);
    CheckedOffsetConsistent(k, elem, attrs, bs, off, EarlyHeaders.HeaderSize(k), n);
  }

  /** The checked items of `unpack_from` at `off` are those of `unpack` of
    * the tail. */
  lemma {:induction false} CheckedOffsetConsistent(k: EarlyHeaders.HeaderKind, elem: Codec, attrs: map<string, Value>,
                                                   bs: seq<byte>, off: nat, hs: nat, n: nat)
    requires Compounds.OffsetConsistent(elem)
    ensures Checked(k, attrs, Arrays.UnpackItemsFrom(elem, NoneValue, bs, off + hs, n),
              hs + ItemsReadFrom(elem, NoneValue, bs, off + hs, n))
         == Checked(k, attrs, Arrays.UnpackItems(elem, NoneValue, Drop(bs, off), hs, n),
              hs + ItemsRead(elem, NoneValue, Drop(bs, off), hs, n))
  {
    Arrays.UnpackItemsFromConsistent(elem, NoneValue, bs, off, hs, n);
    ItemsReadFromConsistent(elem, NoneValue, bs, off, hs, n);
  }

  /** `unpack` once the header has read its values and its length. */
  lemma {:induction false} RunAfterHeader(k: EarlyHeaders.HeaderKind, bo: ByteOrder, elem: Codec,
                                          attributes: map<string, Value>, bs: seq<byte>,
                                          h: Unpacked, attrs: map<string, Value>, n: nat)
    requires Structs.StructUnpack(EarlyHeaders.HeaderStruct(k, bo), bs) == Ok(h)
    requires attrs == Records.Assigned(attributes, EarlyHeaders.Attrs(k), h.values)
    requires EarlyHeaders.LoopCount(k, attrs) == Ok(n)
    ensures var hs := EarlyHeaders.HeaderSize(k);
      StructuredUnpackRun(k, bo, elem, attributes, bs)
        == Checked(k, attrs, Arrays.UnpackItems(elem, NoneValue, bs, hs, n), hs + ItemsRead(elem, NoneValue, bs, hs, n))
  {  hide Arrays.UnpackItems, ItemsRead, Records.Assigned, EarlyHeaders.LoopCount, Structs.StructUnpack, Checked,
      EarlyHeaders.HeaderSize, EarlyHeaders.HeaderStruct;
  }

  /** `unpack_from` once the header has read its values and its length. */
  lemma {:induction false} FromRunAfterHeader(k: EarlyHeaders.HeaderKind, bo: ByteOrder, elem: Codec,
                                              attributes: map<string, Value>, bs: seq<byte>, off: nat,
                                              h: Unpacked, attrs: map<string, Value>, n: nat)
    requires Structs.StructUnpackFrom(EarlyHeaders.HeaderStruct(k, bo), bs, off) == Ok(h)
    requires attrs == Records.Assigned(attributes, EarlyHeaders.Attrs(k), h.values)
    requires EarlyHeaders.LoopCount(k, attrs) == Ok(n)
    ensures var hs := EarlyHeaders.HeaderSize(k);
      StructuredUnpackFromRun(k, bo, elem, attributes, bs, off)
        == Checked(k, attrs, Arrays.UnpackItemsFrom(elem, NoneValue, bs, off + hs, n),
             hs + ItemsReadFrom(elem, NoneValue, bs, off + hs, n))
  {  hide Arrays.UnpackItemsFrom, ItemsReadFrom, Records.Assigned, EarlyHeaders.LoopCount, Structs.StructUnpackFrom, Checked,
      EarlyHeaders.HeaderSize, EarlyHeaders.HeaderStruct;
  }

  /** What `pack_into` wrote, `unpack_from` at the same offset reads back. */
  lemma {:induction false} PackIntoReadsBack(k: EarlyHeaders.HeaderKind, bo: ByteOrder, elem: Codec, attributes: map<string, Value>,
                          items: seq<Value>, b: seq<byte>, offset: nat, other: map<string, Value>)
    requires Compounds.OffsetConsistent(elem)
    requires forall x :: x in items ==> Arrays.ItemRoundTrips(elem, NoneValue, x)
    requires var body := Arrays.PackItems(elem, NoneValue, items, 0);
      body.Ok? && EarlyHeaders.Fits(k, |items|, body.value.size)
      && offset + EarlyHeaders.HeaderSize(k) + body.value.size <= |b|
    ensures var body := Arrays.PackItems(elem, NoneValue, items, 0).value;
      var run := StructuredPackIntoRun(k, bo, elem, attributes, [List(items)], b, offset);
      StructuredUnpackFromRun(k, bo, elem, other, run.buffer, offset).outcome
        == Ok(Unpacked([List(items)], EarlyHeaders.HeaderSize(k) + body.size))
  {
    var body := Arrays.PackItems(elem, NoneValue, items, 0).value;
    PackIntoRoundTrip(k, bo, elem, attributes, items, b, offset);
    Arrays.ItemsRoundTrip(elem, NoneValue, items, 0, [], []);
    var hdr := Structs.StructPack(EarlyHeaders.HeaderStruct(k, bo), EarlyHeaders.PackedValues(k, |items|, body.size)).value;
    EarlyHeaders.HeaderLayout(k, bo);
    var d := hdr.data + body.data;
    var tail := b[offset + |d|..];
    ReadsBack(k, bo, elem, other, items, tail);
    var buf := EarlyBaseTypes.Overwrite(b, offset, d);
    EarlyBaseTypes.OverwriteTail(b, offset, d);
    StructuredOffsetConsistent(k, bo, elem, other, buf, offset);
    DropIsSuffix(buf, offset);
  }

  /** As written, a structured array with a `DynamicCheckedHeader` cannot
    * `pack` from the state `array[...]` creates it in (`header(0, 0)`,
    * which assigns neither attribute): the first header write looks up
    * the data size before anything assigned it. `pack_into` of the same
    * items succeeds, as it assigns the data size before writing. */
  lemma {:induction false} FirstPassNeedsDataSize(c: EarlyStrings.UInt, s: EarlyStrings.UInt, bo: ByteOrder, elem: Codec, items: seq<Value>)
    ensures StructuredPackRun(EarlyHeaders.DynamicCheckedHeader(c, s), bo, elem, map[], [List(items)]).outcome
      == Err(AttributeError)
  {
    var k := EarlyHeaders.DynamicCheckedHeader(c, s);
    var counted := EarlyHeaders.CountAssigned(k, map[], |items|).value;
    assert "data_size" !in counted;
    assert EarlyHeaders.Attrs(k)[1] == "data_size";
    assert Records.Lookup(counted, EarlyHeaders.Attrs(k)).Err?;
  }

  /** The header state the initialiser intends (both attributes assigned)
    * lets `pack` of fitting items succeed and read back. */
  lemma {:induction false} InitializedRoundTrip(c: EarlyStrings.UInt, s: EarlyStrings.UInt, bo: ByteOrder, elem: Codec,
                             items: seq<Value>, other: map<string, Value>, rest: seq<byte>)
    requires forall x :: x in items ==> Arrays.ItemRoundTrips(elem, NoneValue, x)
    requires var body := Arrays.PackItems(elem, NoneValue, items, 0);
      body.Ok? && EarlyHeaders.Fits(EarlyHeaders.DynamicCheckedHeader(c, s), |items|, body.value.size)
    ensures var k := EarlyHeaders.DynamicCheckedHeader(c, s);
      var run := StructuredPackRun(k, bo, elem, map["count" := Int(0), "data_size" := Int(0)], [List(items)]);
      run.outcome.Ok?
      && StructuredUnpackRun(k, bo, elem, other, run.outcome.value.data + rest).outcome
           == Ok(Unpacked([List(items)], run.outcome.value.size))
  {
    StructuredRoundTrip(EarlyHeaders.DynamicCheckedHeader(c, s), bo, elem, map["count" := Int(0), "data_size" := Int(0)],
      items, other, rest);
  }

  // ---- the loops of `_structured_array` ----

  /** One step of the `pack_into` loop, as `WriteItems` takes it. */
  lemma {:induction false} WriteStep(b: seq<byte>, c: Codec, items: seq<Value>, j: nat, pos: nat, packed: Result<Packed>)
    requires j < |items| && packed == PackWith(c, NoneValue, [items[j]])
    ensures packed.Err? ==> WriteItems(b, c, items, j, pos) == Progress(Err(packed.error), pos, b)
    ensures packed.Ok? && pos + |packed.value.data| > |b| ==> WriteItems(b, c, items, j, pos) == Progress(Err(StructError), pos, b)
    ensures packed.Ok? && pos + |packed.value.data| <= |b| ==>
      WriteItems(b, c, items, j, pos)
        == WriteItems(EarlyBaseTypes.Overwrite(b, pos, packed.value.data), c, items, j + 1, pos + packed.value.size)
  {
  }

  /** The invariant of the `unpack` loop: the items read so far, `total`
    * bytes consumed, and the bytes the loop will have consumed when it
    * stops. */
  predicate ReadInv(c: Codec, bs: seq<byte>, hs: nat, n: nat, j: nat, items: seq<Value>, total: nat)
  {
    Arrays.ItemUnpackInv(c, NoneValue, bs, hs, n, j, items, total)
    && ItemsRead(c, NoneValue, bs, hs, n) == (total - hs) + ItemsRead(c, NoneValue, bs, total, n - j)
  }

  lemma {:induction false} ReadStep(c: Codec, bs: seq<byte>, hs: nat, n: nat, j: nat, items: seq<Value>, total: nat,
                                    unpacked: Result<Unpacked>)
    requires j < n && ReadInv(c, bs, hs, n, j, items, total)
    requires unpacked == UnpackWith(c, NoneValue, Drop(bs, total)) && unpacked.Ok?
    ensures ReadInv(c, bs, hs, n, j + 1, items + unpacked.value.values, total + unpacked.value.size)
  {
    Arrays.ItemUnpackStep(c, NoneValue, bs, hs, n, j, items, total, unpacked);
  }

  lemma {:induction false} ReadErr(c: Codec, bs: seq<byte>, hs: nat, n: nat, j: nat, items: seq<Value>, total: nat,
                                   unpacked: Result<Unpacked>)
    requires j < n && ReadInv(c, bs, hs, n, j, items, total)
    requires unpacked == UnpackWith(c, NoneValue, Drop(bs, total)) && unpacked.Err?
    ensures Arrays.UnpackItems(c, NoneValue, bs, hs, n) == Err(unpacked.error)
    ensures hs + ItemsRead(c, NoneValue, bs, hs, n) == total
  {
    Arrays.ItemUnpackErr(c, NoneValue, bs, hs, n, j, items, total, unpacked);
  }

  lemma {:induction false} ReadDone(c: Codec, bs: seq<byte>, hs: nat, n: nat, items: seq<Value>, total: nat)
    requires ReadInv(c, bs, hs, n, n, items, total)
    ensures Arrays.UnpackItems(c, NoneValue, bs, hs, n) == Ok(Unpacked(items, total - hs))
    ensures hs + ItemsRead(c, NoneValue, bs, hs, n) == total
  {
    Compounds.ThenUnpackUnitRight(Ok(Unpacked(items, total - hs)));
  }

  /** The same for the `unpack_from` loop, every position offset by `off`. */
  predicate ReadFromInv(c: Codec, bs: seq<byte>, off: nat, hs: nat, n: nat, j: nat, items: seq<Value>, total: nat)
  {
    Arrays.ItemUnpackFromInv(c, NoneValue, bs, off, hs, n, j, items, total)
    && ItemsReadFrom(c, NoneValue, bs, off + hs, n) == (total - hs) + ItemsReadFrom(c, NoneValue, bs, off + total, n - j)
  }

  lemma {:induction false} ReadFromStep(c: Codec, bs: seq<byte>, off: nat, hs: nat, n: nat, j: nat, items: seq<Value>, total: nat,
                                        unpacked: Result<Unpacked>)
    requires j < n && ReadFromInv(c, bs, off, hs, n, j, items, total)
    requires unpacked == UnpackFromWith(c, NoneValue, bs, off + total) && unpacked.Ok?
    ensures ReadFromInv(c, bs, off, hs, n, j + 1, items + unpacked.value.values, total + unpacked.value.size)
  {
    Arrays.ItemUnpackFromStep(c, NoneValue, bs, off, hs, n, j, items, total, unpacked);
    assert off + total + unpacked.value.size == off + (total + unpacked.value.size);
  }

  lemma {:induction false} ReadFromErr(c: Codec, bs: seq<byte>, off: nat, hs: nat, n: nat, j: nat, items: seq<Value>, total: nat,
                                       unpacked: Result<Unpacked>)
    requires j < n && ReadFromInv(c, bs, off, hs, n, j, items, total)
    requires unpacked == UnpackFromWith(c, NoneValue, bs, off + total) && unpacked.Err?
    ensures Arrays.UnpackItemsFrom(c, NoneValue, bs, off + hs, n) == Err(unpacked.error)
    ensures hs + ItemsReadFrom(c, NoneValue, bs, off + hs, n) == total
  {
    Arrays.ItemUnpackFromErr(c, NoneValue, bs, off, hs, n, j, items, total, unpacked);
  }

  lemma {:induction false} ReadFromDone(c: Codec, bs: seq<byte>, off: nat, hs: nat, n: nat, items: seq<Value>, total: nat)
    requires ReadFromInv(c, bs, off, hs, n, n, items, total)
    ensures Arrays.UnpackItemsFrom(c, NoneValue, bs, off + hs, n) == Ok(Unpacked(items, total - hs))
    ensures hs + ItemsReadFrom(c, NoneValue, bs, off + hs, n) == total
  {
    Compounds.ThenUnpackUnitRight(Ok(Unpacked(items, total - hs)));
  }

  /** `unpack` when the header struct cannot read the buffer. */
  lemma {:induction false} RunHeaderErr(k: EarlyHeaders.HeaderKind, bo: ByteOrder, elem: Codec,
                                        attributes: map<string, Value>, bs: seq<byte>, h: Result<Unpacked>)
    requires h == Structs.StructUnpack(EarlyHeaders.HeaderStruct(k, bo), bs) && h.Err?
    ensures StructuredUnpackRun(k, bo, elem, attributes, bs) == ReadRun(Err(h.error), attributes, None)
  {
    hide Arrays.UnpackItems, ItemsRead, Records.Assigned, EarlyHeaders.LoopCount, Structs.StructUnpack, Checked,
      EarlyHeaders.HeaderSize, EarlyHeaders.HeaderStruct;
  }

  /** `unpack` when the header read has no usable length. */
  lemma {:induction false} RunCountErr(k: EarlyHeaders.HeaderKind, bo: ByteOrder, elem: Codec,
                                       attributes: map<string, Value>, bs: seq<byte>, h: Result<Unpacked>,
                                       attrs: map<string, Value>)
    requires h == Structs.StructUnpack(EarlyHeaders.HeaderStruct(k, bo), bs) && h.Ok?
    requires attrs == Records.Assigned(attributes, EarlyHeaders.Attrs(k), h.value.values)
    requires EarlyHeaders.LoopCount(k, attrs).Err?
    ensures StructuredUnpackRun(k, bo, elem, attributes, bs)
      == ReadRun(Err(EarlyHeaders.LoopCount(k, attrs).error), attrs, Some(EarlyHeaders.HeaderSize(k)))
  {
    hide Arrays.UnpackItems, ItemsRead, Records.Assigned, EarlyHeaders.LoopCount, Structs.StructUnpack, Checked,
      EarlyHeaders.HeaderSize, EarlyHeaders.HeaderStruct;
  }

  /** `unpack_from` when the header struct cannot read the buffer. */
  lemma {:induction false} FromRunHeaderErr(k: EarlyHeaders.HeaderKind, bo: ByteOrder, elem: Codec,
                                            attributes: map<string, Value>, bs: seq<byte>, off: nat, h: Result<Unpacked>)
    requires h == Structs.StructUnpackFrom(EarlyHeaders.HeaderStruct(k, bo), bs, off) && h.Err?
    ensures StructuredUnpackFromRun(k, bo, elem, attributes, bs, off) == ReadRun(Err(h.error), attributes, None)
  {
    hide Arrays.UnpackItemsFrom, ItemsReadFrom, Records.Assigned, EarlyHeaders.LoopCount, Structs.StructUnpackFrom, Checked,
      EarlyHeaders.HeaderSize, EarlyHeaders.HeaderStruct;
  }

  /** `unpack_from` when the header read has no usable length. */
  lemma {:induction false} FromRunCountErr(k: EarlyHeaders.HeaderKind, bo: ByteOrder, elem: Codec,
                                           attributes: map<string, Value>, bs: seq<byte>, off: nat, h: Result<Unpacked>,
                                           attrs: map<string, Value>)
    requires h == Structs.StructUnpackFrom(EarlyHeaders.HeaderStruct(k, bo), bs, off) && h.Ok?
    requires attrs == Records.Assigned(attributes, EarlyHeaders.Attrs(k), h.value.values)
    requires EarlyHeaders.LoopCount(k, attrs).Err?
    ensures StructuredUnpackFromRun(k, bo, elem, attributes, bs, off)
      == ReadRun(Err(EarlyHeaders.LoopCount(k, attrs).error), attrs, Some(EarlyHeaders.HeaderSize(k)))
  {
    hide Arrays.UnpackItemsFrom, ItemsReadFrom, Records.Assigned, EarlyHeaders.LoopCount, Structs.StructUnpackFrom, Checked,
      EarlyHeaders.HeaderSize, EarlyHeaders.HeaderStruct;
  }

  /** The values of a successful `unpack`. */
  function ValuesOf(u: Result<Unpacked>): Result<seq<Value>>
  {
    if u.Err? then Err(u.error) else Ok(u.value.values)
  }

  lemma {:induction false} ValuesOfErr(e: Error)
    ensures ValuesOf(Err(e)) == Err(e)
  {
  }

  /** The values of the checked items: a failed read, a refused data size,
    * or the one list read. */
  lemma {:induction false} CheckedValues(k: EarlyHeaders.HeaderKind, attrs: map<string, Value>, items: Result<Unpacked>, size: nat)
    ensures ValuesOf(Checked(k, attrs, items, size).outcome)
      == if items.Err? then Err(items.error)
         else if EarlyHeaders.ValidateDataSize(k, attrs, items.value.size).Err?
         then Err(EarlyHeaders.ValidateDataSize(k, attrs, items.value.size).error)
         else Ok([List(items.value.values)])
  {
  }

  /** `_structured_array` (170-253): the header object it was made with,
    * updated by every call, and one serializer standing for the item
    * class's own; `size` is unset until a call assigns it. */
  class StructuredArraySerializer {
    const header: EarlyHeaders.ArrayHeader
    const elem: Codec
    var size: Option<nat>

    constructor (header: EarlyHeaders.ArrayHeader, elem: Codec)
      ensures this.header == header && this.elem == elem && size.None?
    {
      this.header := header;
      this.elem := elem;
      size := None;
    }

    /** `pack` through `pack_write` (190-194, 207-227). */
    method Pack(values: seq<Value>) returns (r: Result<seq<byte>>)
      modifies this, header
      ensures var run := StructuredPackRun(header.kind, header.byteOrder, elem, old(header.attributes), values);
        r == DataOf(run.outcome) && header.attributes == run.attributes
        && size == (if run.size.Some? then run.size else old(size))
    {
      hide Arrays.PackItems, WriteItems, EarlyHeaders.HeaderBytes, PackWith, EarlyBaseTypes.Overwrite, Records.Assigned;
      var k, bo := header.kind, header.byteOrder;
      ghost var attributes := header.attributes;
      if |values| == 0 {
        return Err(IndexError);
      }
      var elements := Elements(values[0]);
      if elements.Err? {
        return Err(elements.error);
      }
      var items := elements.value;
      var counting := header.SetCount(|items|);
      if counting.Err? {
        return Err(counting.error);
      }
      ghost var counted := header.attributes;
      assert StructuredPackRun(k, bo, elem, attributes, values) == PackCounted(k, bo, elem, counted, items);
      var first := EarlyHeaders.HeaderBytes(k, bo, header.attributes);
      if first.Err? {
        return Err(first.error);
      }
      var hs := EarlyHeaders.HeaderSize(k);
      size := Some(hs);
      var body := PackAll(items);
      PackCountedExits(k, bo, elem, counted, items, first, body);
      if body.Err? {
        return Err(body.error);
      }
      var dataSize := body.value.size;
      size := Some(hs + dataSize);
      if !EarlyHeaders.TwoPass(k) {
        return Ok(first.value + body.value.data);
      }
      PackCountedSecond(k, bo, elem, counted, items, first, body);
      header.SetDataSize(dataSize);
      var second := EarlyHeaders.HeaderBytes(k, bo, header.attributes);
      if second.Err? {
        return Err(second.error);
      }
      return Ok(second.value + body.value.data);
    }

    /** The item loop of `pack_write` (218-220): each item packed after the
      * last, the first failure ending it. */
    method PackAll(items: seq<Value>) returns (r: Result<Packed>)
      ensures r == Arrays.PackItems(elem, NoneValue, items, 0)
    {
      var out: seq<byte> := [];
      var dataSize: nat := 0;
      var j: nat := 0;
      Compounds.ThenPackUnit(Arrays.PackItems(elem, NoneValue, items, 0));
      while j < |items|
        invariant j <= |items|
        invariant Arrays.ItemPackInv(elem, NoneValue, items, j, out, dataSize)
      {
        var packed := PackWith(elem, NoneValue, [items[j]]);
        if packed.Err? {
          Arrays.ItemPackErr(elem, NoneValue, items, j, out, dataSize, packed);
          return Err(packed.error);
        }
        Arrays.ItemPackStep(elem, NoneValue, items, j, out, dataSize, packed);
        out := out + packed.value.data;
        dataSize := dataSize + packed.value.size;
        j := j + 1;
      }
      Compounds.ThenPackUnitRight(Ok(Packed(out, dataSize)));
      return Ok(Packed(out, dataSize));
    }

    /** `pack_into` (196-205). */
    method PackInto(buffer: array<byte>, offset: nat, values: seq<Value>) returns (r: Result<()>)
      modifies this, header, buffer
      ensures var run := StructuredPackIntoRun(header.kind, header.byteOrder, elem, old(header.attributes), values,
                                               old(buffer[..]), offset);
        r == run.outcome && buffer[..] == run.buffer && header.attributes == run.attributes
        && size == (if run.size.Some? then run.size else old(size))
    {
      hide Arrays.PackItems, WriteItems, EarlyHeaders.HeaderBytes, PackWith, EarlyBaseTypes.Overwrite, Records.Assigned;
      var k, bo := header.kind, header.byteOrder;
      ghost var attributes := header.attributes;
      ghost var b0 := buffer[..];
      if |values| == 0 {
        return Err(IndexError);
      }
      var elements := Elements(values[0]);
      if elements.Err? {
        return Err(elements.error);
      }
      var items := elements.value;
      var counting := header.SetCount(|items|);
      if counting.Err? {
        return Err(counting.error);
      }
      ghost var counted := header.attributes;
      assert StructuredPackIntoRun(k, bo, elem, attributes, values, b0, offset)
        == IntoCounted(k, bo, elem, counted, items, b0, offset);
      var hs := EarlyHeaders.HeaderSize(k);
      size := Some(hs);
      ghost var wr := WriteItems(b0, elem, items, 0, offset + hs);
      var written, pos := WriteAll(buffer, items, offset + hs);
      size := Some(pos - offset);
      if written.Err? {
        assert IntoCounted(k, bo, elem, counted, items, b0, offset)
          == IntoRun(Err(written.error), wr.buffer, counted, Some(pos - offset));
        return Err(written.error);
      }
      ghost var w := buffer[..];
      assert written == Ok(()) by {
        assert written.value == ();
      }
      assert wr == Progress(Ok(()), pos, w);
      IntoCountedWritten(k, bo, elem, counted, items, b0, offset, w, pos);
      header.SetDataSize(pos - offset - hs);
      var hb := EarlyHeaders.HeaderBytes(k, bo, header.attributes);
      IntoHeaderExits(k, bo, counted, w, offset, pos - offset, header.attributes, hb);
      if hb.Err? {
        return Err(hb.error);
      }
      if offset + hs > buffer.Length {
        return Err(StructError);
      }
      EarlyBaseTypes.Write(buffer, offset, hb.value);
      return Ok(());
    }

    /** The item loop of `pack_into` (201-203): each item written where the
      * last ended, the first failure ending it. */
    method WriteAll(buffer: array<byte>, items: seq<Value>, start: nat) returns (r: Result<()>, pos: nat)
      modifies buffer
      ensures var w := WriteItems(old(buffer[..]), elem, items, 0, start);
        r == w.outcome && pos == w.pos && buffer[..] == w.buffer
    {
      ghost var b0 := buffer[..];
      pos := start;
      var j: nat := 0;
      while j < |items|
        invariant j <= |items| && pos >= start && buffer.Length == |b0|
        invariant WriteItems(b0, elem, items, 0, start) == WriteItems(buffer[..], elem, items, j, pos)
      {
        var packed := PackWith(elem, NoneValue, [items[j]]);
        WriteStep(buffer[..], elem, items, j, pos, packed);
        if packed.Err? {
          return Err(packed.error), pos;
        }
        if pos + |packed.value.data| > buffer.Length {
          return Err(StructError), pos;
        }
        EarlyBaseTypes.Write(buffer, pos, packed.value.data);
        pos := pos + packed.value.size;
        j := j + 1;
      }
      return Ok(()), pos;
    }

    /** The loop of `unpack` (234-237): `n` items, each read from the tail
      * after the last, `size` counting the bytes consumed. */
    method ReadItems(buffer: seq<byte>, hs: nat, n: nat) returns (r: Result<Unpacked>)
      modifies this
      ensures r == Arrays.UnpackItems(elem, NoneValue, buffer, hs, n)
      ensures size == Some(hs + ItemsRead(elem, NoneValue, buffer, hs, n))
    {
      var items: seq<Value> := [];
      var total: nat := hs;
      var j: nat := 0;
      size := Some(hs);
      Compounds.ThenUnpackUnit(Arrays.UnpackItems(elem, NoneValue, buffer, hs, n));
      while j < n
        invariant j <= n && ReadInv(elem, buffer, hs, n, j, items, total)
        invariant size == Some(total)
      {
        var unpacked := UnpackWith(elem, NoneValue, Drop(buffer, total));
        if unpacked.Err? {
          ReadErr(elem, buffer, hs, n, j, items, total, unpacked);
          return Err(unpacked.error);
        }
        ReadStep(elem, buffer, hs, n, j, items, total, unpacked);
        items := items + unpacked.value.values;
        total := total + unpacked.value.size;
        size := Some(total);
        j := j + 1;
      }
      ReadDone(elem, buffer, hs, n, items, total);
      return Ok(Unpacked(items, total - hs));
    }

    /** The loop of `unpack_from` (247-250), reading at `offset` onwards. */
    method ReadItemsFrom(buffer: seq<byte>, offset: nat, hs: nat, n: nat) returns (r: Result<Unpacked>)
      modifies this
      ensures r == Arrays.UnpackItemsFrom(elem, NoneValue, buffer, offset + hs, n)
      ensures size == Some(hs + ItemsReadFrom(elem, NoneValue, buffer, offset + hs, n))
    {
      var items: seq<Value> := [];
      var total: nat := hs;
      var j: nat := 0;
      size := Some(hs);
      Compounds.ThenUnpackUnit(Arrays.UnpackItemsFrom(elem, NoneValue, buffer, offset + hs, n));
      while j < n
        invariant j <= n && ReadFromInv(elem, buffer, offset, hs, n, j, items, total)
        invariant size == Some(total)
      {
        var unpacked := UnpackFromWith(elem, NoneValue, buffer, offset + total);
        if unpacked.Err? {
          ReadFromErr(elem, buffer, offset, hs, n, j, items, total, unpacked);
          return Err(unpacked.error);
        }
        ReadFromStep(elem, buffer, offset, hs, n, j, items, total, unpacked);
        items := items + unpacked.value.values;
        total := total + unpacked.value.size;
        size := Some(total);
        j := j + 1;
      }
      ReadFromDone(elem, buffer, offset, hs, n, items, total);
      return Ok(Unpacked(items, total - hs));
    }

    /** `unpack` (229-240). */
    method Unpack(buffer: seq<byte>) returns (r: Result<seq<Value>>)
      modifies this, header
      ensures var run := StructuredUnpackRun(header.kind, header.byteOrder, elem, old(header.attributes), buffer);
        r == ValuesOf(run.outcome) && header.attributes == run.attributes
        && size == (if run.size.Some? then run.size else old(size))
    {
      hide *;
      var k, bo := header.kind, header.byteOrder;
      ghost var attributes := header.attributes;
      ghost var h := Structs.StructUnpack(EarlyHeaders.HeaderStruct(k, bo), buffer);
      var u := header.Unpack(buffer);
      if u.Err? {
        RunHeaderErr(k, bo, elem, attributes, buffer, h);
        ValuesOfErr(u.error);
        return Err(u.error);
      }
      var hs := EarlyHeaders.HeaderSize(k);
      size := Some(hs);
      var count := EarlyHeaders.LoopCount(k, header.attributes);
      if count.Err? {
        RunCountErr(k, bo, elem, attributes, buffer, h, header.attributes);
        ValuesOfErr(count.error);
        return Err(count.error);
      }
      RunAfterHeader(k, bo, elem, attributes, buffer, h.value, header.attributes, count.value);
      var got := ReadItems(buffer, hs, count.value);
      CheckedValues(k, header.attributes, got, hs + ItemsRead(elem, NoneValue, buffer, hs, count.value));
      if got.Err? {
        return Err(got.error);
      }
      var valid := EarlyHeaders.ValidateDataSize(k, header.attributes, got.value.size);
      if valid.Err? {
        return Err(valid.error);
      }
      return Ok([List(got.value.values)]);
    }

    /** `unpack_from` (242-253). */
    method UnpackFrom(buffer: seq<byte>, offset: nat) returns (r: Result<seq<Value>>)
      modifies this, header
      ensures var run := StructuredUnpackFromRun(header.kind, header.byteOrder, elem, old(header.attributes), buffer, offset);
        r == ValuesOf(run.outcome) && header.attributes == run.attributes
        && size == (if run.size.Some? then run.size else old(size))
    {
      hide *;
      var k, bo := header.kind, header.byteOrder;
      ghost var attributes := header.attributes;
      ghost var h := Structs.StructUnpackFrom(EarlyHeaders.HeaderStruct(k, bo), buffer, offset);
      var u := header.UnpackFrom(buffer, offset);
      if u.Err? {
        FromRunHeaderErr(k, bo, elem, attributes, buffer, offset, h);
        ValuesOfErr(u.error);
        return Err(u.error);
      }
      var hs := EarlyHeaders.HeaderSize(k);
      size := Some(hs);
      var count := EarlyHeaders.LoopCount(k, header.attributes);
      if count.Err? {
        FromRunCountErr(k, bo, elem, attributes, buffer, offset, h, header.attributes);
        ValuesOfErr(count.error);
        return Err(count.error);
      }
      FromRunAfterHeader(k, bo, elem, attributes, buffer, offset, h.value, header.attributes, count.value);
      var got := ReadItemsFrom(buffer, offset, hs, count.value);
      CheckedValues(k, header.attributes, got, hs + ItemsReadFrom(elem, NoneValue, buffer, offset + hs, count.value));
      if got.Err? {
        return Err(got.error);
      }
      var valid := EarlyHeaders.ValidateDataSize(k, header.attributes, got.value.size);
      if valid.Err? {
        return Err(valid.error);
      }
      return Ok([List(got.value.values)]);
    }
  }
}
