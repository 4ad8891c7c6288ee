/** The two array serializers of structured/serializers/arrays.py whose items
  * are single struct fields: `StaticStructArraySerializer`, one struct
  * `item * count`, and `DynamicStructArraySerializer`, a count field and
  * then a struct of that many items. */
module StructArrays {
  import opened Outcomes
  import opened Values
  import opened ByteOrders
  import opened PyStruct
  import opened Structs
  import opened Codecs
  import opened Compounds
  import opened Semantics

  // ---- StaticStructArraySerializer (arrays.py:176-222) ----

  /** The item serializer kept for `with_byte_order`, and the one struct
    * `item_serializer * count` that does the work. */
  datatype StaticStructArray = StaticStructArray(count: int, item: StructSer, serializer: StructSer)

  /** The constructor: `item_serializer * count`, which refuses a count
    * below one with ValueError. */
  function NewStaticStructArray(count: int, item: StructSer): (r: Result<StaticStructArray>)
    ensures r.Err? <==> count <= 0
    ensures r.Err? ==> r.error == ValueError
    ensures r.Ok? ==> (r.value.count == count && r.value.item == item
      && r.value.serializer.byteOrder == item.byteOrder
      && Expand(r.value.serializer.fmt) == Times(Expand(item.fmt), count)
      && StructNumValues(r.value.serializer) == StructNumValues(item) * count
      && StructSize(r.value.serializer) == StructSize(item) * count)
  {
    var m := MulImpl(item, IntFactor(count), false);
    if m.Err? then Err(m.error)
    else
      MulLayout(item, count);
      Ok(StaticStructArray(count, item, m.value))
  }

  /** `with_byte_order`: the same count over the item in the new order. */
  function StaticWithByteOrder(a: StaticStructArray, bo: ByteOrder): (r: Result<StaticStructArray>)
    ensures a.count >= 1 ==> (r.Ok? && r.value.item == StructWithByteOrder(a.item, bo)
      && r.value.serializer.byteOrder == bo && r.value.count == a.count)
  {
    NewStaticStructArray(a.count, StructWithByteOrder(a.item, bo))
  }

  /** `pack`: `_check_length(values[0])`, then the items through the one
    * struct. */
  function StaticPack(a: StaticStructArray, vs: seq<Value>): (r: Result<Packed>)
    ensures |vs| == 0 ==> r == Err(IndexError)
    ensures |vs| > 0 && Elements(vs[0]).Ok? && |Elements(vs[0]).value| != a.count ==> r == Err(ValueError)
    ensures r.Ok? ==> r.value.size == StructSize(a.serializer) && |r.value.data| == StructSize(a.serializer)
  {
    if |vs| == 0 then Err(IndexError)
    else
      var items := Elements(vs[0]);
      if items.Err? then Err(items.error)
      else if |items.value| != a.count then Err(ValueError)
      else StructPack(a.serializer, items.value)
  }

  /** `unpack`: the struct's values, as one list. */
  function StaticUnpack(a: StaticStructArray, bs: seq<byte>): (r: Result<Unpacked>)
    ensures r.Ok? <==> |bs| >= StructSize(a.serializer)
    ensures r.Ok? ==> (r.value.size == StructSize(a.serializer) && |r.value.values| == 1
      && r.value.values[0].List? && |r.value.values[0].items| == StructNumValues(a.serializer))
  {
    var u := StructUnpack(a.serializer, bs);
    if u.Err? then Err(u.error) else Ok(Unpacked([List(u.value.values)], u.value.size))
  }

  function StaticUnpackFrom(a: StaticStructArray, bs: seq<byte>, off: nat): (r: Result<Unpacked>)
    ensures r.Ok? <==> off + StructSize(a.serializer) <= |bs|
  {
    var u := StructUnpackFrom(a.serializer, bs, off);
    if u.Err? then Err(u.error) else Ok(Unpacked([List(u.value.values)], u.value.size))
  }

  function StaticCodec(a: StaticStructArray): (c: Codec)
    ensures c.numValues == 1
  {
    Codec(1,
      (obj: Value, vs: seq<Value>) => StaticPack(a, vs),
      (obj: Value, bs: seq<byte>) => StaticUnpack(a, bs),
      (obj: Value, bs: seq<byte>, off: nat) => StaticUnpackFrom(a, bs, off))
  }

  /** A list of `count` items that the struct represents packs, and reads
    * back as the same list, whatever follows it. */
  lemma {:induction false} StaticRoundTrip(a: StaticStructArray, items: seq<Value>, rest: seq<byte>)
    requires |items| == a.count
    requires CanonicalValues(Expand(a.serializer.fmt), items)
    ensures StaticPack(a, [List(items)]).Ok?
    ensures StaticUnpack(a, StaticPack(a, [List(items)]).value.data + rest)
      == Ok(Unpacked([List(items)], StaticPack(a, [List(items)]).value.size))
  {
    StructRoundTripRest(a.serializer, items, rest);
  }

  /** Reading at an offset is reading from that offset on. */
  lemma {:induction false} StaticOffsetConsistent(a: StaticStructArray, bs: seq<byte>, off: nat)
    requires off <= |bs|
    ensures StaticUnpackFrom(a, bs, off) == StaticUnpack(a, Drop(bs, off))
  {
    StructUnpackFromIsUnpack(a.serializer, bs, off);
    DropIsSuffix(bs, off);
  }

  // ---- DynamicStructArraySerializer (arrays.py:225-289) ----

  datatype DynamicStructArray = DynamicStructArray(countSer: StructSer, item: StructSer)

  /** `StructSerializer(s.format)`: a new serializer read back from the whole
    * format string of `s`, marker included. */
  function Reparsed(s: StructSer): (r: StructSer)
    ensures ValidFormat(s.fmt) ==> r == s
  {
    var sp := SplitByteOrder(FullFormat(s));
    if ValidFormat(s.fmt) then SplitWithMarker(s.byteOrder, s.fmt); StructSer(sp.1, sp.0)
    else StructSer(sp.1, sp.0)
  }

  /** The struct `_packer` builds for `n` items: a copy of the count field
    * alone when there are none, otherwise `count_serializer + item * n`,
    * which are not joined when their byte orders differ. */
  function DynamicLayout(a: DynamicStructArray, n: nat): (r: Result<StructSer>)
    ensures n == 0 ==> r == Ok(Reparsed(a.countSer))
    ensures n > 0 ==> (r.Err? <==> a.countSer.byteOrder != a.item.byteOrder)
    ensures r.Err? ==> r.error == ValueError
    ensures n > 0 && r.Ok? ==> Joins(r.value, a.countSer, MulImpl(a.item, IntFactor(n), false).value)
  {
    if n == 0 then Ok(Reparsed(a.countSer))
    else
      var m := MulImpl(a.item, IntFactor(n), false);
      if m.Err? then Err(ValueError)
      else
        var j := StructAdd(a.countSer, m.value);
        if j.Ok? then JoinsFold(a.countSer, m.value); j else j
  }

  /** `pack`: the struct of the count and the items, given as values the
    * count `serializer.num_values - 1` and then the items. */
  function DynamicPack(a: DynamicStructArray, vs: seq<Value>): (r: Result<Packed>)
    ensures |vs| == 0 ==> r == Err(IndexError)
    ensures r.Ok? ==> (|vs| > 0 && Elements(vs[0]).Ok?
      && DynamicLayout(a, |Elements(vs[0]).value|).Ok?
      && r.value.size == StructSize(DynamicLayout(a, |Elements(vs[0]).value|).value))
  {
    if |vs| == 0 then Err(IndexError)
    else
      var items := Elements(vs[0]);
      if items.Err? then Err(items.error)
      else
        var s := DynamicLayout(a, |items.value|);
        if s.Err? then Err(s.error)
        else StructPack(s.value, [Int(StructNumValues(s.value) - 1)] + items.value)
  }

  /** `item_serializer * count` takes an int (a bool is one); any other count
    * is not a factor. */
  function FactorOf(v: Value): (r: Factor)
    ensures v.Int? ==> r == IntFactor(v.i)
    ensures r.NotInt? <==> !(v.Int? || v.Bool?)
  {
    match v
    case Int(i) => IntFactor(i)
    case Bool(b) => IntFactor(if b then 1 else 0)
    case _ => NotInt
  }

  /** `unpack` as written: `(count,) = ...` refuses anything but one value
    * with ValueError, and a count of 0 reaches `item_serializer * 0`, which
    * raises ValueError too. */
  function DynamicUnpackAsWritten(a: DynamicStructArray, bs: seq<byte>): (r: Result<Unpacked>)
  {
    var counted := StructUnpack(a.countSer, bs);
    if counted.Err? then Err(counted.error)
    else if |counted.value.values| != 1 then Err(ValueError)
    else
      var m := MulImpl(a.item, FactorOf(counted.value.values[0]), false);
      if m.Err? then Err(m.error)
      else
        var size := StructSize(a.countSer);
        var u := StructUnpack(m.value, Drop(bs, size));
        if u.Err? then Err(u.error) else Ok(Unpacked([List(u.value.values)], size + u.value.size))
  }

  /** `unpack` with a count of 0 read as the empty list that `pack([])`
    * writes; otherwise as written. */
  function DynamicUnpack(a: DynamicStructArray, bs: seq<byte>): (r: Result<Unpacked>)
    ensures |bs| < StructSize(a.countSer) ==> r.Err?
    ensures r.Ok? ==> |r.value.values| == 1 && r.value.values[0].List? && r.value.size >= StructSize(a.countSer)
  {
    var counted := StructUnpack(a.countSer, bs);
    if counted.Err? then Err(counted.error)
    else if |counted.value.values| != 1 then Err(ValueError)
    else if FactorOf(counted.value.values[0]) == IntFactor(0) then
      Ok(Unpacked([List([])], StructSize(a.countSer)))
    else
      var m := MulImpl(a.item, FactorOf(counted.value.values[0]), false);
      if m.Err? then Err(m.error)
      else
        var size := StructSize(a.countSer);
        var u := StructUnpack(m.value, Drop(bs, size));
        if u.Err? then Err(u.error) else Ok(Unpacked([List(u.value.values)], size + u.value.size))
  }

  /** `unpack_from`: the count at `off`, the items right after it. */
  function DynamicUnpackFrom(a: DynamicStructArray, bs: seq<byte>, off: nat): (r: Result<Unpacked>)
  {
    var counted := StructUnpackFrom(a.countSer, bs, off);
    if counted.Err? then Err(counted.error)
    else if |counted.value.values| != 1 then Err(ValueError)
    else if FactorOf(counted.value.values[0]) == IntFactor(0) then
      Ok(Unpacked([List([])], StructSize(a.countSer)))
    else
      var m := MulImpl(a.item, FactorOf(counted.value.values[0]), false);
      if m.Err? then Err(m.error)
      else
        var size := StructSize(a.countSer);
        var u := StructUnpackFrom(m.value, bs, off + size);
        if u.Err? then Err(u.error) else Ok(Unpacked([List(u.value.values)], size + u.value.size))
  }

  /** The serializer as the source builds it, with `num_values = 0`. */
  function DynamicCodecAsWritten(a: DynamicStructArray): (c: Codec)
    ensures c.numValues == 0
  {
    Codec(0,
      (obj: Value, vs: seq<Value>) => DynamicPack(a, vs),
      (obj: Value, bs: seq<byte>) => DynamicUnpack(a, bs),
      (obj: Value, bs: seq<byte>, off: nat) => DynamicUnpackFrom(a, bs, off))
  }

  /** The serializer with `num_values = 1`: it takes and gives one list. */
  function DynamicCodec(a: DynamicStructArray): (c: Codec)
    ensures c.numValues == 1
  {
    Codec(1,
      (obj: Value, vs: seq<Value>) => DynamicPack(a, vs),
      (obj: Value, bs: seq<byte>) => DynamicUnpack(a, bs),
      (obj: Value, bs: seq<byte>, off: nat) => DynamicUnpackFrom(a, bs, off))
  }

  // ---- what the dynamic array writes and reads ----

  /** The conditions under which a list packs and reads back: one count
    * field that holds the list's length, single-value items in the count's
    * byte order, and items the repeated item struct represents. */
  predicate DynamicFits(a: DynamicStructArray, items: seq<Value>)
  {
    a.countSer.byteOrder == a.item.byteOrder && StructNumValues(a.item) == 1
    && ValidFormat(a.countSer.fmt)
    && CanonicalValues(Expand(a.countSer.fmt), [Int(|items|)])
    && (|items| > 0 ==>
          MulImpl(a.item, IntFactor(|items|), false).Ok?
          && CanonicalValues(Expand(MulImpl(a.item, IntFactor(|items|), false).value.fmt), items))
  }

  /** Through a struct joining a single count field and an item struct, the
    * count and the items pack as the two structs would, one after the other. */
  lemma {:induction false} JoinedCountPack(j: StructSer, c: StructSer, m: StructSer, items: seq<Value>)
    requires Joins(j, c, m)
    requires CanonicalValues(Expand(c.fmt), [Int(|items|)])
    requires CanonicalValues(Expand(m.fmt), items)
    ensures StructPack(c, [Int(|items|)]).Ok? && StructPack(m, items).Ok?
    ensures StructPack(j, [Int(StructNumValues(j) - 1)] + items)
      == Ok(Packed(StructPack(c, [Int(|items|)]).value.data + StructPack(m, items).value.data,
                   StructSize(c) + StructSize(m)))
  {
    JoinsSizes(j, c, m);
    StructPackJoin(j, c, m, [Int(|items|)], items);
    StructRoundTrip(c, [Int(|items|)]);
    StructRoundTrip(m, items);
  }

  /** `pack` of one list goes through the struct `_packer` builds. */
  lemma {:induction false} PackThrough(a: DynamicStructArray, items: seq<Value>, j: StructSer, p: Result<Packed>)
    requires DynamicLayout(a, |items|) == Ok(j)
    requires StructPack(j, [Int(StructNumValues(j) - 1)] + items) == p
    ensures DynamicPack(a, [List(items)]) == p
  {
    hide StructPack, DynamicLayout, PyStruct.Pack, PyStruct.Expand, PyStruct.CalcSize;
  }

  lemma {:induction false} PackLayoutOf(a: DynamicStructArray, items: seq<Value>, j: StructSer, m: StructSer)
    requires DynamicLayout(a, |items|) == Ok(j)
    requires Joins(j, a.countSer, m)
    requires CanonicalValues(Expand(a.countSer.fmt), [Int(|items|)])
    requires CanonicalValues(Expand(m.fmt), items)
    ensures StructPack(a.countSer, [Int(|items|)]).Ok? && StructPack(m, items).Ok?
    ensures DynamicPack(a, [List(items)])
      == Ok(Packed(StructPack(a.countSer, [Int(|items|)]).value.data + StructPack(m, items).value.data,
                   StructSize(a.countSer) + StructSize(m)))
  {
    JoinedCountPack(j, a.countSer, m, items);
    PackThrough(a, items, j,
      Ok(Packed(StructPack(a.countSer, [Int(|items|)]).value.data + StructPack(m, items).value.data,
                StructSize(a.countSer) + StructSize(m))));
  }

  /** A non-empty list packs as the count field holding its length followed
    * by the items packed by `item * n`. */
  lemma {:induction false} DynamicPackLayout(a: DynamicStructArray, items: seq<Value>)
    requires |items| > 0 && DynamicFits(a, items)
    ensures MulImpl(a.item, IntFactor(|items|), false).Ok?
    ensures StructPack(a.countSer, [Int(|items|)]).Ok?
    ensures StructPack(MulImpl(a.item, IntFactor(|items|), false).value, items).Ok?
    ensures DynamicPack(a, [List(items)]).Ok?
    ensures DynamicPack(a, [List(items)]).value.data
      == StructPack(a.countSer, [Int(|items|)]).value.data
         + StructPack(MulImpl(a.item, IntFactor(|items|), false).value, items).value.data
    ensures DynamicPack(a, [List(items)]).value.size
      == StructSize(a.countSer) + StructSize(MulImpl(a.item, IntFactor(|items|), false).value)
  {
    PackLayoutOf(a, items, DynamicLayout(a, |items|).value, MulImpl(a.item, IntFactor(|items|), false).value);
  }

  /** The empty list packs as the count field holding 0. */
  lemma {:induction false} DynamicPackEmpty(a: DynamicStructArray)
    requires DynamicFits(a, [])
    ensures StructPack(a.countSer, [Int(0)]).Ok?
    ensures DynamicPack(a, [List([])]) == StructPack(a.countSer, [Int(0)])
  {
    StructRoundTrip(a.countSer, [Int(0)]);
    assert [Int(StructNumValues(a.countSer) - 1)] + [] == [Int(0)];
  }

  /** `unpack` of a buffer whose count field holds `n > 0`. */
  lemma {:induction false} UnpackThrough(a: DynamicStructArray, bs: seq<byte>, n: int, m: StructSer, u: Unpacked)
    requires n > 0
    requires StructUnpack(a.countSer, bs) == Ok(Unpacked([Int(n)], StructSize(a.countSer)))
    requires MulImpl(a.item, IntFactor(n), false) == Ok(m)
    requires StructUnpack(m, Drop(bs, StructSize(a.countSer))) == Ok(u)
    ensures DynamicUnpack(a, bs) == Ok(Unpacked([List(u.values)], StructSize(a.countSer) + u.size))
  {
  }

  /** The count field reads back its count, and what follows it is left
    * for the items. */
  lemma {:induction false} CountFieldReads(c: StructSer, n: int, tail: seq<byte>)
    requires CanonicalValues(Expand(c.fmt), [Int(n)])
    ensures StructPack(c, [Int(n)]).Ok?
    ensures StructUnpack(c, StructPack(c, [Int(n)]).value.data + tail) == Ok(Unpacked([Int(n)], StructSize(c)))
    ensures Drop(StructPack(c, [Int(n)]).value.data + tail, StructSize(c)) == tail
  {
    StructRoundTripRest(c, [Int(n)], tail);
    DropPrefix(StructPack(c, [Int(n)]).value.data, tail);
  }

  /** Reading the layout `DynamicPackLayout` describes. */
  lemma {:induction false} DynamicUnpackLayout(a: DynamicStructArray, items: seq<Value>, m: StructSer, rest: seq<byte>)
    requires |items| > 0
    requires MulImpl(a.item, IntFactor(|items|), false) == Ok(m)
    requires CanonicalValues(Expand(a.countSer.fmt), [Int(|items|)])
    requires CanonicalValues(Expand(m.fmt), items)
    ensures StructPack(a.countSer, [Int(|items|)]).Ok? && StructPack(m, items).Ok?
    ensures DynamicUnpack(a, StructPack(a.countSer, [Int(|items|)]).value.data + (StructPack(m, items).value.data + rest))
      == Ok(Unpacked([List(items)], StructSize(a.countSer) + StructSize(m)))
  {
    StructRoundTripRest(m, items, rest);
    CountFieldReads(a.countSer, |items|, StructPack(m, items).value.data + rest);
    UnpackThrough(a, StructPack(a.countSer, [Int(|items|)]).value.data + (StructPack(m, items).value.data + rest),
      |items|, m, Unpacked(items, StructSize(m)));
  }

  /** A packing laid out as `DynamicPackLayout` describes reads back as the
    * list it came from, whatever follows it. */
  lemma {:induction false} ReadPackedParts(a: DynamicStructArray, items: seq<Value>, m: StructSer, p: Result<Packed>,
                                           rest: seq<byte>)
    requires |items| > 0
    requires MulImpl(a.item, IntFactor(|items|), false) == Ok(m)
    requires CanonicalValues(Expand(a.countSer.fmt), [Int(|items|)])
    requires CanonicalValues(Expand(m.fmt), items)
    requires p.Ok?
    requires StructPack(a.countSer, [Int(|items|)]).Ok? && StructPack(m, items).Ok?
    requires p.value.data == StructPack(a.countSer, [Int(|items|)]).value.data + StructPack(m, items).value.data
    requires p.value.size == StructSize(a.countSer) + StructSize(m)
    ensures DynamicUnpack(a, p.value.data + rest) == Ok(Unpacked([List(items)], p.value.size))
  {
    DynamicUnpackLayout(a, items, m, rest);
    ConcatAssoc(StructPack(a.countSer, [Int(|items|)]).value.data, StructPack(m, items).value.data, rest);
  }

  lemma {:induction false} DynamicRoundTripItems(a: DynamicStructArray, items: seq<Value>, rest: seq<byte>)
    requires |items| > 0 && DynamicFits(a, items)
    ensures DynamicPack(a, [List(items)]).Ok?
    ensures DynamicUnpack(a, DynamicPack(a, [List(items)]).value.data + rest)
      == Ok(Unpacked([List(items)], DynamicPack(a, [List(items)]).value.size))
  {
    DynamicPackLayout(a, items);
    ReadPackedParts(a, items, MulImpl(a.item, IntFactor(|items|), false).value, DynamicPack(a, [List(items)]), rest);
  }

  lemma {:induction false} DynamicRoundTripEmpty(a: DynamicStructArray, rest: seq<byte>)
    requires DynamicFits(a, [])
    ensures DynamicPack(a, [List([])]).Ok?
    ensures DynamicUnpack(a, DynamicPack(a, [List([])]).value.data + rest)
      == Ok(Unpacked([List([])], DynamicPack(a, [List([])]).value.size))
  {
    DynamicPackEmpty(a);
    StructRoundTripRest(a.countSer, [Int(0)], rest);
  }

  /** Every list the serializer can represent, the empty one included,
    * reads back as itself, whatever follows it. */
  lemma {:induction false} DynamicRoundTrip(a: DynamicStructArray, items: seq<Value>, rest: seq<byte>)
    requires DynamicFits(a, items)
    ensures DynamicPack(a, [List(items)]).Ok?
    ensures DynamicUnpack(a, DynamicPack(a, [List(items)]).value.data + rest)
      == Ok(Unpacked([List(items)], DynamicPack(a, [List(items)]).value.size))
  {
    if |items| == 0 {
      assert items == [];
      DynamicRoundTripEmpty(a, rest);
    } else {
      DynamicRoundTripItems(a, items, rest);
    }
  }

  /** Reading at an offset is reading from that offset on. */
  lemma {:induction false} DynamicOffsetConsistent(a: DynamicStructArray, bs: seq<byte>, off: nat)
    requires off <= |bs|
    ensures DynamicUnpackFrom(a, bs, off) == DynamicUnpack(a, Drop(bs, off))
  {
    DropIsSuffix(bs, off);
    StructUnpackFromIsUnpack(a.countSer, bs, off);
    var counted := StructUnpack(a.countSer, Drop(bs, off));
    if counted.Ok? && |counted.value.values| == 1 {
      var m := MulImpl(a.item, FactorOf(counted.value.values[0]), false);
      if m.Ok? {
        var size := StructSize(a.countSer);
        DropDrop(bs, off, size);
        if off + size <= |bs| {
          StructUnpackFromIsUnpack(m.value, bs, off + size);
          DropIsSuffix(bs, off + size);
        } else {
          DropPastEnd(Drop(bs, off), size);
        }
      }
    }
  }

  /** As written, the empty list packs but what it packs does not unpack:
    * `item_serializer * 0` raises ValueError. */
  lemma {:induction false} EmptyDynamicArrayAsWritten(a: DynamicStructArray)
    requires DynamicFits(a, [])
    ensures DynamicPack(a, [List([])]).Ok?
    ensures DynamicUnpackAsWritten(a, DynamicPack(a, [List([])]).value.data) == Err(ValueError)
  {
    DynamicPackEmpty(a);
    StructRoundTripRest(a.countSer, [Int(0)], []);
    assert StructPack(a.countSer, [Int(0)]).value.data + [] == StructPack(a.countSer, [Int(0)]).value.data;
  }

  /** As written, in a compound the array is handed no values at all, so
    * packing fails with IndexError whatever the values are. */
  lemma {:induction false} DynamicInCompoundAsWritten(a: DynamicStructArray, other: Codec, obj: Value, vs: seq<Value>)
    ensures CompoundPack([DynamicCodecAsWritten(a), other], obj, vs) == Err(IndexError)
  {
    CompoundPackPair(DynamicCodecAsWritten(a), other, obj, vs);
    assert Slice(vs, 0, 0) == [];
  }

  /** With `num_values = 1` the array packs the first value of the tuple and
    * the next serializer the values after it. */
  lemma {:induction false} DynamicInCompound(a: DynamicStructArray, other: Codec, obj: Value, vs: seq<Value>)
    requires |vs| >= 1
    ensures CompoundPack([DynamicCodec(a), other], obj, vs)
      == ThenPack(DynamicPack(a, [vs[0]]), PackWith(other, obj, Slice(vs, 1, 1 + other.numValues)))
  {
    CompoundPackPair(DynamicCodec(a), other, obj, vs);
    SliceIsSubsequence(vs, 0, 1);
  }

  /** `array[uint32, int8]` holding `[1, 2, 3]` packs through the struct
    * `'I3b'`. */
  lemma {:induction false} DynamicFormatExample()
    ensures DynamicLayout(DynamicStructArray(StructSer([Item(None, 'I')], Default), StructSer([Item(None, 'b')], Default)), 3)
      == Ok(StructSer([Item(None, 'I'), Item(Some(3), 'b')], Default))
  {
    var b := [Item(None, 'b')];
    assert Overlaps(b, b, false);
    assert FoldOverlaps(b, b, false) == [Item(Some(2), 'b')];
    assert Repeated(b, 2, false) == [Item(Some(2), 'b')];
    assert Overlaps([Item(Some(2), 'b')], b, false);
    assert FoldOverlaps([Item(Some(2), 'b')], b, false) == [Item(Some(3), 'b')];
    assert Repeated(b, 3, false) == [Item(Some(3), 'b')];
    assert !Overlaps([Item(None, 'I')], [Item(Some(3), 'b')], false);
    var m := StructSer([Item(Some(3), 'b')], Default);
    assert MulImpl(StructSer(b, Default), IntFactor(3), false) == Ok(m);
    assert [Item(None, 'I')] + [Item(Some(3), 'b')] == [Item(None, 'I'), Item(Some(3), 'b')];
    assert StructAdd(StructSer([Item(None, 'I')], Default), m) == Ok(StructSer([Item(None, 'I'), Item(Some(3), 'b')], Default));
  }

  // ---- the dynamic array object ----

  /** `DynamicStructArraySerializer`, whose `size` is set by each call. */
  class DynamicStructArraySerializer {
    const countSerializer: StructSer
    const itemSerializer: StructSer
    const numValues: nat
    var size: nat

    constructor (count: StructSer, item: StructSer)
      ensures countSerializer == count && itemSerializer == item
      ensures numValues == 1 && size == 0
    {
      countSerializer := count;
      itemSerializer := item;
      numValues := 1;
      size := 0;
    }

    function Shape(): DynamicStructArray
    {
      DynamicStructArray(countSerializer, itemSerializer)
    }

    /** `pack`: `_packer` records the struct's size before packing, so a
      * struct error still leaves `size` changed. */
    method Pack(values: seq<Value>) returns (r: Result<seq<byte>>)
      modifies this
      ensures var spec := DynamicPack(Shape(), values);
        r == (if spec.Err? then Err(spec.error) else Ok(spec.value.data))
      ensures var layout := if |values| > 0 && Elements(values[0]).Ok?
          then DynamicLayout(Shape(), |Elements(values[0]).value|) else Err(TypeError);
        size == (if layout.Ok? then StructSize(layout.value) else old(size))
    {
      if |values| == 0 {
        return Err(IndexError);
      }
      var elements := Elements(values[0]);
      if elements.Err? {
        return Err(elements.error);
      }
      var items := elements.value;
      var serializer := DynamicLayout(Shape(), |items|);
      if serializer.Err? {
        return Err(serializer.error);
      }
      size := StructSize(serializer.value);
      var packed := StructPack(serializer.value, [Int(StructNumValues(serializer.value) - 1)] + items);
      if packed.Err? {
        return Err(packed.error);
      }
      return Ok(packed.value.data);
    }

    method Unpack(buffer: seq<byte>) returns (r: Result<seq<Value>>)
      modifies this
      ensures var spec := DynamicUnpack(Shape(), buffer);
        (spec.Err? ==> r == Err(spec.error) && size == old(size))
        && (spec.Ok? ==> r == Ok(spec.value.values) && size == spec.value.size)
    {
      var counted := StructUnpack(countSerializer, buffer);
      if counted.Err? {
        return Err(counted.error);
      }
      if |counted.value.values| != 1 {
        return Err(ValueError);
      }
      var countSize := StructSize(countSerializer);
      var factor := FactorOf(counted.value.values[0]);
      if factor == IntFactor(0) {
        size := countSize;
        return Ok([List([])]);
      }
      var serializer := MulImpl(itemSerializer, factor, false);
      if serializer.Err? {
        return Err(serializer.error);
      }
      var items := StructUnpack(serializer.value, Drop(buffer, countSize));
      if items.Err? {
        return Err(items.error);
      }
      size := countSize + items.value.size;
      return Ok([List(items.value.values)]);
    }

    method UnpackFrom(buffer: seq<byte>, offset: nat) returns (r: Result<seq<Value>>)
      modifies this
      ensures var spec := DynamicUnpackFrom(Shape(), buffer, offset);
        (spec.Err? ==> r == Err(spec.error) && size == old(size))
        && (spec.Ok? ==> r == Ok(spec.value.values) && size == spec.value.size)
    {
      var counted := StructUnpackFrom(countSerializer, buffer, offset);
      if counted.Err? {
        return Err(counted.error);
      }
      if |counted.value.values| != 1 {
        return Err(ValueError);
      }
      var countSize := StructSize(countSerializer);
      var factor := FactorOf(counted.value.values[0]);
      if factor == IntFactor(0) {
        size := countSize;
        return Ok([List([])]);
      }
      var serializer := MulImpl(itemSerializer, factor, false);
      if serializer.Err? {
        return Err(serializer.error);
      }
      var items := StructUnpackFrom(serializer.value, buffer, offset + countSize);
      if items.Err? {
        return Err(items.error);
      }
      size := countSize + items.value.size;
      return Ok([List(items.value.values)]);
    }
  }
}
