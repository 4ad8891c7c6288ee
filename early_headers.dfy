/** The array headers of the second early generation
  * (structured/complex_types/array_headers.py): a header is a small
  * `Structured` object packed in front of an array's items, holding the
  * array's length, the byte size of its items, both, or neither. */
module EarlyHeaders {
  import opened Outcomes
  import opened Values
  import opened ByteOrders
  import opened PyStruct
  import Structs
  import Records
  import EarlyStrings

  /** An argument of `Header[...]`: an int, a `uint*` type, `None`, or
    * anything else (a `TypeVar` is not part of this model). */
  datatype HeaderArg = ArgInt(n: int) | ArgUint(u: EarlyStrings.UInt) | ArgNone | ArgOther

  /** The four header classes `Header._create` dispatches to; a static
    * length is the class variable `_count`, a `uint*` the type of a packed
    * attribute. */
  datatype HeaderKind =
    | StaticHeader(count: nat)
    | DynamicHeader(countType: EarlyStrings.UInt)
    | StaticCheckedHeader(count: nat, sizeType: EarlyStrings.UInt)
    | DynamicCheckedHeader(countType: EarlyStrings.UInt, sizeType: EarlyStrings.UInt)

  /** `two_pass`: the header holds a data size, known only once the items
    * are packed. */
  predicate TwoPass(k: HeaderKind) { k.StaticCheckedHeader? || k.DynamicCheckedHeader? }

  /** The length is fixed by the class and not packed. */
  predicate IsStatic(k: HeaderKind) { k.StaticHeader? || k.StaticCheckedHeader? }

  /** `Header._create` (array_headers.py:221-245) with the `specialize`
    * checks of the static kinds (61-65, 140-141): a size check must be a
    * `uint*`, a length an int or a `uint*`, and an int length positive. */
  function HeaderCreate(count: HeaderArg, sizeCheck: HeaderArg): (r: Result<HeaderKind>)
    ensures r.Ok? <==> (sizeCheck.ArgNone? || sizeCheck.ArgUint?) && (count.ArgUint? || (count.ArgInt? && count.n > 0))
    ensures (r.Err? && r.error == ValueError) <==>
      (sizeCheck.ArgNone? || sizeCheck.ArgUint?) && count.ArgInt? && count.n <= 0
    ensures r.Err? ==> r.error == ValueError || r.error == TypeError
    ensures r.Ok? ==> (TwoPass(r.value) <==> sizeCheck.ArgUint?) && (IsStatic(r.value) <==> count.ArgInt?)
    ensures r.Ok? && count.ArgInt? ==> r.value.count == count.n
    ensures r.Ok? && count.ArgUint? ==> r.value.countType == count.u
    ensures r.Ok? && sizeCheck.ArgUint? ==> r.value.sizeType == sizeCheck.u
  {
    if !sizeCheck.ArgNone? && !sizeCheck.ArgUint? then Err(TypeError)
    else if sizeCheck.ArgNone? && !count.ArgInt? && !count.ArgUint? then Err(TypeError)
    else if sizeCheck.ArgNone? then
      if count.ArgUint? then Ok(DynamicHeader(count.u))
      else if count.n <= 0 then Err(ValueError)
      else Ok(StaticHeader(count.n))
    else if count.ArgUint? then Ok(DynamicCheckedHeader(count.u, sizeCheck.u))
    else if count.ArgInt? then
      if count.n <= 0 then Err(ValueError) else Ok(StaticCheckedHeader(count.n, sizeCheck.u))
    else Err(TypeError)
  }

  /** `Header[key]` (192-205): a single key is a one-element tuple, and
    * `create(count, size_check=None)` takes one or two arguments. */
  function HeaderSubscript(key: seq<HeaderArg>): (r: Result<HeaderKind>)
    ensures (|key| == 0 || |key| > 2) ==> r == Err(TypeError)
    ensures |key| == 1 ==> r == HeaderCreate(key[0], ArgNone)
    ensures |key| == 2 ==> r == HeaderCreate(key[0], key[1])
  {
    if |key| == 1 then HeaderCreate(key[0], ArgNone)
    else if |key| == 2 then HeaderCreate(key[0], key[1])
    else Err(TypeError)
  }

  // ---- the packed layout ----

  function IntItem(u: EarlyStrings.UInt): Item { Item(None, EarlyStrings.SizeChar(u)) }

  /** The struct format of the packed attributes, in order. */
  function HeaderFormat(k: HeaderKind): Format
  {
    match k
    case StaticHeader(_) => []
    case DynamicHeader(c) => [IntItem(c)]
    case StaticCheckedHeader(_, s) => [IntItem(s)]
    case DynamicCheckedHeader(c, s) => [IntItem(c), IntItem(s)]
  }

  function HeaderStruct(k: HeaderKind, bo: ByteOrder): Structs.StructSer
  {
    Structs.StructSer(HeaderFormat(k), bo)
  }

  /** The attribute names the header class packs, in order. */
  function Attrs(k: HeaderKind): seq<string>
  {
    match k
    case StaticHeader(_) => []
    case DynamicHeader(_) => ["count"]
    case StaticCheckedHeader(_, _) => ["data_size"]
    case DynamicCheckedHeader(_, _) => ["count", "data_size"]
  }

  /** The bytes a header occupies: the width of each packed `uint*`. */
  function HeaderSize(k: HeaderKind): nat
  {
    match k
    case StaticHeader(_) => 0
    case DynamicHeader(c) => EarlyStrings.SizeWidth(c)
    case StaticCheckedHeader(_, s) => EarlyStrings.SizeWidth(s)
    case DynamicCheckedHeader(c, s) => EarlyStrings.SizeWidth(c) + EarlyStrings.SizeWidth(s)
  }

  lemma {:induction false} IntItemLayout(u: EarlyStrings.UInt)
    ensures ExpandItem(IntItem(u)) == [Unsigned(EarlyStrings.SizeWidth(u))]
  {
    assert Repeat(UnitOf(EarlyStrings.SizeChar(u)), 1) == [UnitOf(EarlyStrings.SizeChar(u))];
  }

  /** The packed fields are one unsigned field per attribute. */
  lemma {:induction false} HeaderUnits(k: HeaderKind)
    ensures Expand(HeaderFormat(k)) == match k
      case StaticHeader(_) => []
      case DynamicHeader(c) => [Unsigned(EarlyStrings.SizeWidth(c))]
      case StaticCheckedHeader(_, s) => [Unsigned(EarlyStrings.SizeWidth(s))]
      case DynamicCheckedHeader(c, s) => [Unsigned(EarlyStrings.SizeWidth(c)), Unsigned(EarlyStrings.SizeWidth(s))]
  {
    match k
    case StaticHeader(_) =>
    case DynamicHeader(c) =>
      Structs.ExpandSingle(IntItem(c));
      IntItemLayout(c);
    case StaticCheckedHeader(_, s) =>
      Structs.ExpandSingle(IntItem(s));
      IntItemLayout(s);
    case DynamicCheckedHeader(c, s) =>
      var f := HeaderFormat(k);
      assert f[1..] == [IntItem(s)] && f[1..][1..] == [];
      IntItemLayout(c);
      IntItemLayout(s);
  }

  /** The header struct packs one value per attribute into `HeaderSize`
    * bytes. */
  lemma {:induction false} HeaderLayout(k: HeaderKind, bo: ByteOrder)
    ensures Structs.StructNumValues(HeaderStruct(k, bo)) == |Attrs(k)|
    ensures Structs.StructSize(HeaderStruct(k, bo)) == HeaderSize(k)
  {
    HeaderUnits(k);
    var us := Expand(HeaderFormat(k));
    match k
    case StaticHeader(_) =>
    case DynamicHeader(c) =>
      assert us[1..] == [];
    case StaticCheckedHeader(_, s) =>
      assert us[1..] == [];
    case DynamicCheckedHeader(c, s) =>
      assert us[1..][1..] == [];
  }

  /** The values `count` and `data_size` fit the header's fields. */
  predicate Fits(k: HeaderKind, count: nat, dataSize: nat)
  {
    match k
    case StaticHeader(n) => count == n
    case DynamicHeader(c) => count < Pow256(EarlyStrings.SizeWidth(c))
    case StaticCheckedHeader(n, s) => count == n && dataSize < Pow256(EarlyStrings.SizeWidth(s))
    case DynamicCheckedHeader(c, s) =>
      count < Pow256(EarlyStrings.SizeWidth(c)) && dataSize < Pow256(EarlyStrings.SizeWidth(s))
  }

  /** The attribute values a header with this length and data size packs. */
  function PackedValues(k: HeaderKind, count: nat, dataSize: nat): (r: seq<Value>)
    ensures |r| == |Attrs(k)|
  {
    match k
    case StaticHeader(_) => []
    case DynamicHeader(_) => [Int(count)]
    case StaticCheckedHeader(_, _) => [Int(dataSize)]
    case DynamicCheckedHeader(_, _) => [Int(count), Int(dataSize)]
  }

  // ---- the attribute state ----

  /** `pack` of the header (the `Structured` `_get` then the struct): an
    * attribute never assigned is an AttributeError. */
  function HeaderBytes(k: HeaderKind, bo: ByteOrder, attributes: map<string, Value>): (r: Result<seq<byte>>)
    ensures r.Ok? ==> |r.value| == HeaderSize(k)
  {
    HeaderLayout(k, bo);
    var vs := Records.Lookup(attributes, Attrs(k));
    if vs.Err? then Err(vs.error)
    else
      var p := Structs.StructPack(HeaderStruct(k, bo), vs.value);
      if p.Err? then Err(p.error) else Ok(p.value.data)
  }

  /** The header packs the attributes its class names, in order, as its
    * struct; one never assigned is an AttributeError. */
  lemma {:induction false} HeaderBytesPacks(k: HeaderKind, bo: ByteOrder, attributes: map<string, Value>)
    ensures var r := HeaderBytes(k, bo, attributes);
      (Records.Lookup(attributes, Attrs(k)).Err? ==> r == Err(AttributeError))
      && (r.Ok? ==> (Records.Lookup(attributes, Attrs(k)).Ok?
        && Structs.StructPack(HeaderStruct(k, bo), Records.Lookup(attributes, Attrs(k)).value) == Ok(Packed(r.value, HeaderSize(k)))))
  {
    HeaderLayout(k, bo);
  }

  /** `header.count` as `range()` takes it: the class's `_count`, or the
    * assigned attribute, where a negative length runs no turn. */
  function LoopCount(k: HeaderKind, attributes: map<string, Value>): (r: Result<nat>)
    ensures IsStatic(k) ==> r == Ok(k.count)
    ensures !IsStatic(k) && "count" !in attributes ==> r == Err(AttributeError)
    ensures !IsStatic(k) && "count" in attributes && attributes["count"].Int? ==>
      r == Ok(if attributes["count"].i < 0 then 0 else attributes["count"].i)
  {
    if IsStatic(k) then Ok(k.count)
    else if "count" !in attributes then Err(AttributeError)
    else match attributes["count"]
      case Int(i) => Ok(if i < 0 then 0 else i)
      case Bool(b) => Ok(if b then 1 else 0)
      case _ => Err(TypeError)
  }

  /** `validate_data_size` (34-37, 107-113, 158-164): the checked headers
    * refuse exactly a byte count other than the stored one; the others
    * accept anything. */
  function ValidateDataSize(k: HeaderKind, attributes: map<string, Value>, actual: nat): (r: Result<()>)
    ensures r.Err? || r == Ok(())
    ensures !TwoPass(k) ==> r == Ok(())
    ensures TwoPass(k) && "data_size" in attributes ==>
      (r.Err? <==> attributes["data_size"] != Int(actual))
    ensures r.Err? ==> r.error == (if "data_size" in attributes then ValueError else AttributeError)
  {
    if !TwoPass(k) then Ok(())
    else if "data_size" !in attributes then Err(AttributeError)
    else if attributes["data_size"] == Int(actual) then Ok(())
    else Err(ValueError)
  }

  /** `header.count = n`: the static kinds' setters (53-59, 120-126) refuse
    * any other length and store nothing; the dynamic kinds assign the
    * attribute. */
  function CountAssigned(k: HeaderKind, attributes: map<string, Value>, n: int): (r: Result<map<string, Value>>)
    ensures r.Err? <==> IsStatic(k) && n != k.count
    ensures r.Err? ==> r.error == ValueError
    ensures r.Ok? ==> LoopCount(k, r.value) == Ok(if n < 0 then 0 else n)
  {
    if IsStatic(k) then (if n != k.count then Err(ValueError) else Ok(attributes))
    else Ok(attributes["count" := Int(n)])
  }

  /** Setting the length leaves every other attribute as it was. */
  lemma {:induction false} CountKeeps(k: HeaderKind, attributes: map<string, Value>, n: int)
    requires CountAssigned(k, attributes, n).Ok?
    ensures var r := CountAssigned(k, attributes, n).value;
      (forall a :: a in attributes && a != "count" ==> a in r && r[a] == attributes[a])
      && (forall a :: a in r && a != "count" ==> a in attributes)
  {
  }

  /** The header struct writes the values of a fitting length and data size
    * and reads them back before anything, and any header object that reads
    * them then has that length and accepts that data size and no other. */
  lemma {:induction false} HeaderRoundTrip(k: HeaderKind, bo: ByteOrder, count: nat, dataSize: nat,
                        other: map<string, Value>, rest: seq<byte>)
    requires Fits(k, count, dataSize)
    ensures var st := HeaderStruct(k, bo);
      var vs := PackedValues(k, count, dataSize);
      Structs.StructPack(st, vs).Ok?
      && Structs.StructUnpack(st, Structs.StructPack(st, vs).value.data + rest) == Ok(Unpacked(vs, HeaderSize(k)))
    ensures var after := Records.Assigned(other, Attrs(k), PackedValues(k, count, dataSize));
      LoopCount(k, after) == Ok(count)
      && (forall actual: nat :: ValidateDataSize(k, after, actual).Ok? <==> !TwoPass(k) || actual == dataSize)
  {
    var st := HeaderStruct(k, bo);
    var vs := PackedValues(k, count, dataSize);
    HeaderUnits(k);
    HeaderLayout(k, bo);
    var us := Expand(st.fmt);
    assert CanonicalValues(us, vs) by {
      if |us| == 2 {
        assert us[1..][1..] == [] && vs[1..][1..] == [];
      } else if |us| == 1 {
        assert us[1..] == [] && vs[1..] == [];
      }
    }
    Structs.StructRoundTripRest(st, vs, rest);
    var attrs := Attrs(k);
    assert Records.Distinct(attrs);
    Records.AssignedFields(other, attrs, vs);
    var after := Records.Assigned(other, attrs, vs);
    if !IsStatic(k) {
      assert attrs[0] == "count" && after[attrs[0]] == vs[0];
    }
    if TwoPass(k) {
      var j := |attrs| - 1;
      assert attrs[j] == "data_size" && after[attrs[j]] == vs[j];
    }
  }

  /** An instance of a header class, with its instance attributes. */
  class ArrayHeader {
    const kind: HeaderKind
    const byteOrder: ByteOrder
    var attributes: map<string, Value>

    /** `header(count, data_size)` as each class's `__init__` is written:
      * `DynamicHeader` assigns `count` (82-84), `StaticCheckedHeader`
      * assigns `data_size` (103-105), and the other two inherit the no-op
      * of `HeaderBase` (31-32), so `DynamicCheckedHeader` starts without
      * either of the attributes it packs. */
    constructor (kind: HeaderKind, byteOrder: ByteOrder, count: int, dataSize: int)
      ensures this.kind == kind && this.byteOrder == byteOrder
      ensures attributes == match kind
        case DynamicHeader(_) => map["count" := Int(count)]
        case StaticCheckedHeader(_, _) => map["data_size" := Int(dataSize)]
        case _ => map[]
    {
      this.kind := kind;
      this.byteOrder := byteOrder;
      attributes := match kind
        case DynamicHeader(_) => map["count" := Int(count)]
        case StaticCheckedHeader(_, _) => map["data_size" := Int(dataSize)]
        case _ => map[];
    }

    /** `header(count, data_size)` as the other classes' initialisers
      * intend: every packed attribute assigned. */
    constructor Initialized(kind: HeaderKind, byteOrder: ByteOrder, count: int, dataSize: int)
      ensures this.kind == kind && this.byteOrder == byteOrder
      ensures attributes == match kind
        case StaticHeader(_) => map[]
        case DynamicHeader(_) => map["count" := Int(count)]
        case StaticCheckedHeader(_, _) => map["data_size" := Int(dataSize)]
        case DynamicCheckedHeader(_, _) => map["count" := Int(count), "data_size" := Int(dataSize)]
    {
      this.kind := kind;
      this.byteOrder := byteOrder;
      attributes := match kind
        case StaticHeader(_) => map[]
        case DynamicHeader(_) => map["count" := Int(count)]
        case StaticCheckedHeader(_, _) => map["data_size" := Int(dataSize)]
        case DynamicCheckedHeader(_, _) => map["count" := Int(count), "data_size" := Int(dataSize)];
    }

    /** `header.count = n`. */
    method SetCount(n: int) returns (r: Result<()>)
      modifies this
      ensures var s := CountAssigned(kind, old(attributes), n);
        (s.Err? ==> r == Err(s.error) && attributes == old(attributes))
        && (s.Ok? ==> r == Ok(()) && attributes == s.value)
    {
      var s := CountAssigned(kind, attributes, n);
      if s.Err? {
        return Err(s.error);
      }
      attributes := s.value;
      return Ok(());
    }

    /** `header.data_size = n`: an instance attribute of every kind (the
      * unchecked ones shadow their class variable). */
    method SetDataSize(n: int)
      modifies this
      ensures attributes == old(attributes)["data_size" := Int(n)]
    {
      attributes := attributes["data_size" := Int(n)];
    }

    /** `header.unpack(buffer)`: the header struct reads the front of the
      * buffer and `_set` assigns its values. */
    method Unpack(buffer: seq<byte>) returns (r: Result<()>)
      modifies this
      ensures var u := Structs.StructUnpack(HeaderStruct(kind, byteOrder), buffer);
        (u.Err? ==> r == Err(u.error) && attributes == old(attributes))
        && (u.Ok? ==> r == Ok(()) && attributes == Records.Assigned(old(attributes), Attrs(kind), u.value.values))
    {
      var u := Structs.StructUnpack(HeaderStruct(kind, byteOrder), buffer);
      if u.Err? {
        return Err(u.error);
      }
      attributes := Records.Assigned(attributes, Attrs(kind), u.value.values);
      return Ok(());
    }

    /** `header.unpack_from(buffer, offset)`. */
    method UnpackFrom(buffer: seq<byte>, offset: nat) returns (r: Result<()>)
      modifies this
      ensures var u := Structs.StructUnpackFrom(HeaderStruct(kind, byteOrder), buffer, offset);
        (u.Err? ==> r == Err(u.error) && attributes == old(attributes))
        && (u.Ok? ==> r == Ok(()) && attributes == Records.Assigned(old(attributes), Attrs(kind), u.value.values))
    {
      var u := Structs.StructUnpackFrom(HeaderStruct(kind, byteOrder), buffer, offset);
      if u.Err? {
        return Err(u.error);
      }
      attributes := Records.Assigned(attributes, Attrs(kind), u.value.values);
      return Ok(());
    }
  }
}
