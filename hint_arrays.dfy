/** The type-hint front end of structured/hint_types/arrays.py: `Header[...]`
  * checks its arguments, and `array[Header, item]` picks the array
  * serializer kind. */
module HintArrays {
  import opened Outcomes
  import opened Values
  import opened ByteOrders
  import opened PyStruct
  import opened Structs
  import opened Codecs
  import opened Semantics
  import opened Arrays
  import opened StructArrays

  /** `uint8` .. `uint64`, the types `_SizeTypes` lists. */
  datatype SizeType = UInt8 | UInt16 | UInt32 | UInt64

  function SizeChar(t: SizeType): char
  {
    match t
    case UInt8 => 'B'
    case UInt16 => 'H'
    case UInt32 => 'I'
    case UInt64 => 'Q'
  }

  /** The width in bytes of the unsigned field a size type stands for. */
  function SizeWidth(t: SizeType): nat
  {
    match t
    case UInt8 => 1
    case UInt16 => 2
    case UInt32 => 4
    case UInt64 => 8
  }

  /** The `StructSerializer` a size type is annotated with: one unsigned
    * field in the default byte order. */
  function SizeSerializer(t: SizeType): (r: StructSer)
    ensures r.byteOrder == Default && StructNumValues(r) == 1 && StructSize(r) == SizeWidth(t)
    ensures Expand(r.fmt) == [Unsigned(SizeWidth(t))]
  {
    var it := Item(None, SizeChar(t));
    ExpandSingle(it);
    assert ExpandItem(it) == [Unsigned(SizeWidth(t))] by {
      assert Repeat(Unsigned(SizeWidth(t)), 1) == [Unsigned(SizeWidth(t))];
    }
    assert [Unsigned(SizeWidth(t))][1..] == [];
    assert UnitsValues([Unsigned(SizeWidth(t))]) == 1;
    assert UnitsSize([Unsigned(SizeWidth(t))]) == SizeWidth(t);
    StructSer([it], Default)
  }

  /** A subscript argument as `Header[...]` tells them apart. */
  datatype Arg = SizeArg(t: SizeType) | IntArg(n: int) | NoneArg | TypeVarArg | OtherArg

  /** What `cls[args]` receives: one object, or a tuple of them. */
  datatype Subscript = Single(a: Arg) | ArgTuple(items: seq<Arg>)

  /** `Header.count`: a fixed length, or the serializer of a count field. */
  datatype Count = StaticCount(n: nat) | CountField(st: StructSer)

  datatype Header = Header(count: Count, dataSize: Option<StructSer>)

  /** A class built from concrete arguments, or the `StructuredAlias` that
    * stands in while a type variable is still open. */
  datatype Created<T> = Made(value: T) | Alias

  function CountOf(length: Arg): (r: Result<Count>)
    ensures r.Ok? <==> length.SizeArg? || (length.IntArg? && length.n >= 0)
    ensures length.IntArg? && length.n < 0 ==> r == Err(ValueError)
    ensures r.Err? && !length.IntArg? ==> r.error == TypeError
    ensures length.SizeArg? ==> r == Ok(CountField(SizeSerializer(length.t)))
    ensures length.IntArg? && length.n >= 0 ==> r == Ok(StaticCount(length.n))
  {
    match length
    case SizeArg(t) => Ok(CountField(SizeSerializer(t)))
    case IntArg(n) => if n < 0 then Err(ValueError) else Ok(StaticCount(n))
    case _ => Err(TypeError)
  }

  function DataSizeOf(size: Arg): (r: Result<Option<StructSer>>)
    ensures r.Ok? <==> size.NoneArg? || size.SizeArg?
    ensures r.Err? ==> r.error == TypeError
    ensures size.NoneArg? ==> r == Ok(None)
    ensures size.SizeArg? ==> r == Ok(Some(SizeSerializer(size.t)))
  {
    match size
    case NoneArg => Ok(None)
    case SizeArg(t) => Ok(Some(SizeSerializer(t)))
    case _ => Err(TypeError)
  }

  /** `Header._create` (arrays.py:53-83): an open type variable gives an
    * alias; the length is checked before the size check. */
  function HeaderCreate(length: Arg, size: Arg): (r: Result<Created<Header>>)
    ensures (length.TypeVarArg? || size.TypeVarArg?) ==> r == Ok(Alias)
    ensures !length.TypeVarArg? && !size.TypeVarArg? ==>
      (r.Ok? <==> CountOf(length).Ok? && DataSizeOf(size).Ok?)
    ensures !length.TypeVarArg? && !size.TypeVarArg? && CountOf(length).Err? ==> r == Err(CountOf(length).error)
    ensures r.Ok? && r.value.Made? ==>
      r.value.value == Header(CountOf(length).value, DataSizeOf(size).value)
  {
    if length.TypeVarArg? || size.TypeVarArg? then Ok(Alias)
    else
      match CountOf(length)
      case Err(e) => Err(e)
      case Ok(c) =>
        match DataSizeOf(size)
        case Err(e) => Err(e)
        case Ok(d) => Ok(Made(Header(c, d)))
  }

  /** `Header[...]` (arrays.py:38-51): one argument is the length alone, two
    * are the length and the size check, any other count is a TypeError. */
  function HeaderSubscript(args: Subscript): (r: Result<Created<Header>>)
    ensures args.Single? ==> r == HeaderCreate(args.a, NoneArg)
    ensures args.ArgTuple? && |args.items| == 2 ==> r == HeaderCreate(args.items[0], args.items[1])
    ensures args.ArgTuple? && |args.items| != 2 ==> r == Err(TypeError)
    ensures r.Ok? && r.value.Made? ==> HeaderWellFormed(r.value.value)
  {
    match args
    case Single(a) => HeaderCreate(a, NoneArg)
    case ArgTuple(items) => if |items| == 2 then HeaderCreate(items[0], items[1]) else Err(TypeError)
  }

  /** Every header `Header[...]` builds: a fixed length is never negative
    * and every field is a one-value unsigned struct. */
  predicate HeaderWellFormed(h: Header)
  {
    (h.count.CountField? ==> StructNumValues(h.count.st) == 1 && h.count.st.byteOrder == Default)
    && (h.dataSize.Some? ==> StructNumValues(h.dataSize.value) == 1 && h.dataSize.value.byteOrder == Default)
  }

  // ---- array[Header, item] ----

  datatype HeaderOperand = HeaderObj(h: Header) | HeaderAlias | NotHeader

  /** The item type: a struct field type, another serializer, an open type
    * variable, or something with no serializer. */
  datatype ItemOperand = StructItem(st: StructSer) | OtherItem(c: Codec) | ItemTypeVar | NotSerializable

  datatype ArraySubscript = Pair(header: HeaderOperand, item: ItemOperand) | WrongArity

  /** The serializer `array[...]` annotates the list with. */
  datatype ArrayKind =
    | StaticStruct(s: StaticStructArray)
    | DynamicStruct(d: DynamicStructArray)
    | General(header: HeaderSer, item: Codec, staticLength: int)

  /** The general `ArraySerializer` (arrays.py:117-135): a fixed length
    * writes only the size check, if any; a counted one writes the count
    * and then the size check, if any, through `count + data_size`. */
  function GeneralArray(h: Header, item: Codec): (r: Result<ArrayKind>)
    ensures r.Ok? ==> r.value.General? && r.value.item == item
    ensures h.count.StaticCount? ==> (r.Ok? && r.value.staticLength == h.count.n
      && r.value.header == (if h.dataSize.None? then NullHeader else StructHeader(h.dataSize.value)))
    ensures h.count.CountField? && r.Ok? ==> r.value.staticLength == -1
    ensures h.count.CountField? && h.dataSize.None? ==> r == Ok(General(StructHeader(h.count.st), item, -1))
    ensures h.count.CountField? && h.dataSize.Some? ==>
      (r.Err? <==> h.count.st.byteOrder != h.dataSize.value.byteOrder)
  {
    match h.count
    case StaticCount(n) =>
      Ok(General(if h.dataSize.None? then NullHeader else StructHeader(h.dataSize.value), item, n))
    case CountField(c) =>
      if h.dataSize.None? then Ok(General(StructHeader(c), item, -1))
      else
        match StructAdd(c, h.dataSize.value)
        case Err(e) => Err(e)
        case Ok(j) => Ok(General(StructHeader(j), item, -1))
  }

  /** `array.__class_getitem__` (arrays.py:89-135). */
  function ArrayOf(args: ArraySubscript): (r: Result<Created<ArrayKind>>)
    ensures args.WrongArity? ==> r == Err(TypeError)
    ensures args.Pair? && (args.header.HeaderAlias? || args.item.ItemTypeVar?) ==> r == Ok(Alias)
    ensures args.Pair? && args.header.NotHeader? && !args.item.ItemTypeVar? ==> r == Err(TypeError)
    ensures args.Pair? && args.header.HeaderObj? && args.item.NotSerializable? ==> r == Err(TypeError)
  {
    match args
    case WrongArity => Err(TypeError)
    case Pair(header, item) =>
      if header.HeaderAlias? || item.ItemTypeVar? then Ok(Alias)
      else if header.NotHeader? then Err(TypeError)
      else
        var h := header.h;
        match item
        case NotSerializable => Err(TypeError)
        case StructItem(st) =>
          if StructNumValues(st) == 1 then
            match h.count
            case StaticCount(n) =>
              (match NewStaticStructArray(n, st)
               case Err(e) => Err(e)
               case Ok(a) => Ok(Made(StaticStruct(a))))
            case CountField(c) => Ok(Made(DynamicStruct(DynamicStructArray(c, st))))
          else MadeFrom(GeneralArray(h, StructCodec(st)))
        case OtherItem(c) => MadeFrom(GeneralArray(h, c))
  }

  function MadeFrom(r: Result<ArrayKind>): Result<Created<ArrayKind>>
  {
    match r
    case Err(e) => Err(e)
    case Ok(k) => Ok(Made(k))
  }

  /** A single-value struct item is specialised, whatever size check the
    * header asks for: a fixed length becomes one struct `item * count`
    * (so a length of 0 is refused with ValueError), a count field a
    * `DynamicStructArraySerializer` over the header's count serializer. */
  lemma {:induction false} StructItemSpecialised(h: Header, st: StructSer)
    requires StructNumValues(st) == 1
    ensures h.count.StaticCount? && h.count.n == 0 ==>
      ArrayOf(Pair(HeaderObj(h), StructItem(st))) == Err(ValueError)
    ensures h.count.StaticCount? && h.count.n > 0 ==>
      ArrayOf(Pair(HeaderObj(h), StructItem(st))) == Ok(Made(StaticStruct(NewStaticStructArray(h.count.n, st).value)))
    ensures h.count.CountField? ==>
      ArrayOf(Pair(HeaderObj(h), StructItem(st))) == Ok(Made(DynamicStruct(DynamicStructArray(h.count.st, st))))
  {
  }

  /** Every general array `array[...]` builds from a header `Header[...]`
    * built has the header shape `ArraySerializer` expects, and carries the
    * items' byte count exactly when the header has a size check. */
  lemma {:induction false} GeneralHeaderFits(h: Header, item: ItemOperand)
    requires HeaderWellFormed(h)
    requires ArrayOf(Pair(HeaderObj(h), item)).Ok?
    requires ArrayOf(Pair(HeaderObj(h), item)).value.Made?
    requires ArrayOf(Pair(HeaderObj(h), item)).value.value.General?
    ensures var g := ArrayOf(Pair(HeaderObj(h), item)).value.value;
      HeaderFits(g.header, g.staticLength)
      && (HasDataSize(g.header, g.staticLength) <==> h.dataSize.Some?)
      && (IsStatic(g.staticLength) <==> h.count.StaticCount?)
  {
    if h.count.CountField? && h.dataSize.Some? {
      FoldOverlapsNumValues(h.count.st.fmt, h.dataSize.value.fmt);
    }
  }

  /** The `array[Header[uint32], int8]` of the dynamic-format test is a
    * dynamic struct array, which packs through `'I3b'` for three items. */
  lemma {:induction false} DynamicStructExample()
    ensures ArrayOf(Pair(HeaderObj(HeaderSubscript(Single(SizeArg(UInt32))).value.value),
                         StructItem(StructSer([Item(None, 'b')], Default))))
      == Ok(Made(DynamicStruct(DynamicStructArray(StructSer([Item(None, 'I')], Default),
                                                  StructSer([Item(None, 'b')], Default)))))
  {
  }

  /** A negative length, a length that is neither an int nor a size type,
    * and a size check that is not a size type are each refused. */
  lemma {:induction false} HeaderErrors(t: SizeType, n: int)
    requires n < 0
    ensures HeaderSubscript(Single(IntArg(n))) == Err(ValueError)
    ensures HeaderSubscript(Single(OtherArg)) == Err(TypeError)
    ensures HeaderSubscript(ArgTuple([SizeArg(t), IntArg(4)])) == Err(TypeError)
    ensures HeaderSubscript(ArgTuple([SizeArg(t), SizeArg(t), NoneArg])) == Err(TypeError)
  {
  }
}
