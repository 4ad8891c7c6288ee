/** `TupleSerializer` of structured/serializers/tuples.py: a group of
  * serializers, joined with `+`, whose values travel as one tuple. */
module Tuples {
  import opened Outcomes
  import opened Values
  import opened ByteOrders
  import opened PyStruct
  import opened Structs
  import opened Codecs
  import Compounds
  import Api

  /** `pack(values)`: exactly one argument, the tuple, spread over the inner
    * serializer (`pack(*values)`); anything not iterable is a TypeError. */
  function TuplePack(inner: Codec, obj: Value, vs: seq<Value>): (r: Result<Packed>)
    ensures |vs| != 1 ==> r == Err(TypeError)
    ensures |vs| == 1 && Elements(vs[0]).Err? ==> r == Err(TypeError)
    ensures |vs| == 1 && Elements(vs[0]).Ok? ==> r == PackWith(inner, obj, Elements(vs[0]).value)
  {
    if |vs| != 1 then Err(TypeError)
    else
      var items := Elements(vs[0]);
      if items.Err? then Err(items.error) else PackWith(inner, obj, items.value)
  }

  /** What the inner serializer unpacked, as one tuple value. */
  function Grouped(u: Result<Unpacked>): (r: Result<Unpacked>)
    ensures r.Ok? <==> u.Ok?
    ensures r.Err? ==> r.error == u.error
    ensures r.Ok? ==> r.value == Unpacked([Tuple(u.value.values)], u.value.size)
  {
    if u.Err? then Err(u.error) else Ok(Unpacked([Tuple(u.value.values)], u.value.size))
  }

  function TupleUnpack(inner: Codec, obj: Value, bs: seq<byte>): Result<Unpacked>
  {
    Grouped(UnpackWith(inner, obj, bs))
  }

  function TupleUnpackFrom(inner: Codec, obj: Value, bs: seq<byte>, off: nat): Result<Unpacked>
  {
    Grouped(UnpackFromWith(inner, obj, bs, off))
  }

  /** A tuple serializer always stands for one value, whatever its inner
    * serializer's `num_values`. */
  function TupleCodec(inner: Codec): (r: Codec)
    ensures r.numValues == 1
  {
    Codec(1,
      (obj: Value, vs: seq<Value>) => TuplePack(inner, obj, vs),
      (obj: Value, bs: seq<byte>) => TupleUnpack(inner, obj, bs),
      (obj: Value, bs: seq<byte>, off: nat) => TupleUnpackFrom(inner, obj, bs, off))
  }

  /** `TupleSerializer(serializers)` with the compound of the children as its
    * inner serializer.  The source's `+` fold from `NullSerializer` joins
    * neighbouring structs into one, which behaves like this compound only up
    * to alignment padding; the fold itself is `TupleFold`. */
  function TupleOf(children: seq<Codec>): (r: Codec)
    ensures r.numValues == 1
  {
    TupleCodec(Compounds.CompoundCodec(children))
  }

  /** How `TupleSerializer(serializers)` builds its inner serializer:
    * `sum(serializers, NullSerializer())`, the children added one after
    * another with `+` from `NullSerializer`, with `+`'s errors. */
  function TupleFold(children: seq<Api.Serializer>): (r: Result<Api.Serializer>)
    requires forall i :: 0 <= i < |children| ==> Api.WellFormed(children[i])
    ensures r.Ok? ==> Api.WellFormed(r.value)
    decreases |children|
  {
    if children == [] then Ok(Api.Null)
    else
      var init := TupleFold(children[..|children| - 1]);
      if init.Err? then init else Api.Add(init.value, Api.Ser(children[|children| - 1]))
  }

  /** When the fold succeeds, its serializer stands for as many values as
    * the children together (which the tuple then groups into one). */
  lemma {:induction false} TupleFoldNumValues(children: seq<Api.Serializer>)
    requires forall i :: 0 <= i < |children| ==> Api.WellFormed(children[i])
    requires TupleFold(children).Ok?
    ensures Api.NumValuesOf(TupleFold(children).value) == Api.SumNumValues(children)
    decreases |children|
  {
    if children != [] {
      var n := |children| - 1;
      var init := children[..n];
      TupleFoldNumValues(init);
      Api.AddNumValues(TupleFold(init).value, children[n]);
      assert init + [children[n]] == children;
      Api.SumNumValuesAppend(init, [children[n]]);
      assert Api.SumNumValues([children[n]]) == Api.NumValuesOf(children[n]) by {
        assert [children[n]][1..] == [];
      }
    }
  }

  /** The fold of serializers `+` can build is one `+` can build. */
  lemma {:induction false} TupleFoldBuilt(children: seq<Api.Serializer>)
    requires forall i :: 0 <= i < |children| ==> Api.WellFormed(children[i]) && Api.Built(children[i])
    requires TupleFold(children).Ok?
    ensures Api.Built(TupleFold(children).value)
    decreases |children|
  {
    if children != [] {
      var n := |children| - 1;
      TupleFoldBuilt(children[..n]);
      Api.AddBuilt(TupleFold(children[..n]).value, children[n]);
    }
  }

  /** Once the children so far fold to a final serializer, any further child
    * but `NullSerializer` makes the construction fail (api.py:179-181). */
  lemma {:induction false} TupleFoldFinalStops(children: seq<Api.Serializer>, next: Api.Serializer)
    requires forall i :: 0 <= i < |children| ==> Api.WellFormed(children[i]) && Api.Built(children[i])
    requires Api.WellFormed(next) && Api.Built(next) && next != Api.Null
    requires TupleFold(children).Ok? && Api.IsFinal(TupleFold(children).value)
    ensures TupleFold(children + [next]).Err?
  {
    assert (children + [next])[..|children|] == children;
    TupleFoldBuilt(children);
    Api.FinalIsLast(TupleFold(children).value, next);
  }

  /** Two struct children fold exactly when they share a byte order; mixed
    * orders are a ValueError (structs.py:156-170). */
  lemma {:induction false} TupleFoldTwoStructs(a: StructSer, b: StructSer)
    ensures TupleFold([Api.Struct(a), Api.Struct(b)]).Err?
      <==> a.byteOrder != b.byteOrder
    ensures TupleFold([Api.Struct(a), Api.Struct(b)]).Err?
      ==> TupleFold([Api.Struct(a), Api.Struct(b)]).error == ValueError
    ensures TupleFold([Api.Struct(a), Api.Struct(b)]).Ok?
      ==> TupleFold([Api.Struct(a), Api.Struct(b)]) == Api.AddSimple(Api.Struct(a), Api.Struct(b))
  {
    var cs := [Api.Struct(a), Api.Struct(b)];
    assert cs[..1] == [Api.Struct(a)] && [Api.Struct(a)][..0] == [];
    assert TupleFold([Api.Struct(a)]) == Ok(Api.Struct(a)) by {
      Api.NullLeftIdentity(Api.Struct(a));
    }
    assert TupleFold(cs) == Api.Add(Api.Struct(a), Api.Ser(Api.Struct(b)));
  }

  /** A tuple round-trips whenever its inner serializer round-trips the
    * tuple's items, and its `size` is the inner serializer's. */
  lemma {:induction false} TupleRoundTrip(inner: Codec, obj: Value, items: seq<Value>, rest: seq<byte>)
    requires PackWith(inner, obj, items).Ok?
    requires UnpackWith(inner, obj, PackWith(inner, obj, items).value.data + rest)
      == Ok(Unpacked(items, PackWith(inner, obj, items).value.size))
    ensures PackWith(TupleCodec(inner), obj, [Tuple(items)]) == PackWith(inner, obj, items)
    ensures UnpackWith(TupleCodec(inner), obj, PackWith(inner, obj, items).value.data + rest)
      == Ok(Unpacked([Tuple(items)], PackWith(inner, obj, items).value.size))
  {
  }

  /** Any iterable packs as its elements: a list packs the same as the tuple
    * of the same items. */
  lemma {:induction false} ListPacksLikeTuple(inner: Codec, obj: Value, items: seq<Value>)
    ensures PackWith(TupleCodec(inner), obj, [List(items)]) == PackWith(TupleCodec(inner), obj, [Tuple(items)])
  {
  }

  /** The `unpack_from` of a tuple reads where its inner serializer reads and
    * consumes as much. */
  lemma {:induction false} TupleUnpackFromDelegates(inner: Codec, obj: Value, bs: seq<byte>, off: nat)
    ensures var u := UnpackFromWith(inner, obj, bs, off);
      UnpackFromWith(TupleCodec(inner), obj, bs, off)
        == if u.Err? then Err(u.error) else Ok(Unpacked([Tuple(u.value.values)], u.value.size))
  {
  }

  const Int8: StructSer := StructSer([Item(None, 'b')], LittleEndian)
  const Int16: StructSer := StructSer([Item(None, 'h')], LittleEndian)

  /** `tuple[int8, int16]` in little-endian order: the fold of the two is the
    * struct `'<bh'`, and the tuple `(1, 2)` packs as that struct packs
    * `1, 2`, in three bytes, and reads back as the same tuple.  (In the
    * default order the struct module pads `'bh'` to four bytes, native
    * alignment that is not part of this model.) */
  lemma {:induction false} Int8Int16Example(rest: seq<byte>)
    ensures StructAdd(Int8, Int16) == Ok(StructSer([Item(None, 'b'), Item(None, 'h')], LittleEndian))
    ensures var bh := StructSer([Item(None, 'b'), Item(None, 'h')], LittleEndian);
      var p := PackWith(TupleCodec(StructCodec(bh)), NoneValue, [Tuple([Int(1), Int(2)])]);
      p == StructPack(bh, [Int(1), Int(2)]) && p.Ok? && p.value.size == 3
      && UnpackWith(TupleCodec(StructCodec(bh)), NoneValue, p.value.data + rest)
        == Ok(Unpacked([Tuple([Int(1), Int(2)])], 3))
  {
    var bh := StructSer([Item(None, 'b'), Item(None, 'h')], LittleEndian);
    assert !Overlaps(Int8.fmt, Int16.fmt, false);
    assert Int8.fmt + Int16.fmt == bh.fmt;
    BhLayout();
    hide Expand, ExpandItem, PackUnits, UnpackUnits, PyStruct.Pack, PyStruct.Unpack, CanonicalValues;
    StructRoundTripRest(bh, [Int(1), Int(2)], rest);
  }

  /** `'<bh'` is a one-byte and a two-byte signed field, three bytes in all,
    * and holds 1 and 2. */
  lemma {:induction false} BhLayout()
    ensures var bh := StructSer([Item(None, 'b'), Item(None, 'h')], LittleEndian);
      Expand(bh.fmt) == [Signed(1), Signed(2)] && CanonicalValues(Expand(bh.fmt), [Int(1), Int(2)])
      && StructSize(bh) == 3
  {
    var bh := StructSer([Item(None, 'b'), Item(None, 'h')], LittleEndian);
    assert Expand(bh.fmt) == [Signed(1), Signed(2)] by {
      assert Expand(bh.fmt) == ExpandItem(bh.fmt[0]) + Expand(bh.fmt[1..]);
      assert bh.fmt[1..] == [Item(None, 'h')];
    }
    var us := [Signed(1), Signed(2)];
    assert CanonicalValues(us, [Int(1), Int(2)]) by {
      assert us[1..] == [Signed(2)] && us[1..][1..] == [];
      assert CanonicalValues(us[1..][1..], [Int(1), Int(2)][1..][1..]);
    }
    assert UnitsSize(us) == 3 by {
      assert us[1..] == [Signed(2)] && us[1..][1..] == [];
    }
  }

  /** The tuple serializer object: `prepack`/`preunpack` store the object,
    * which the inner serializer is then given; `size` is the inner
    * serializer's. */
  class TupleSerializer {
    const inner: Codec
    var partialObject: Option<Value>
    var size: nat

    constructor (children: seq<Codec>)
      ensures inner == Compounds.CompoundCodec(children)
      ensures partialObject == None && size == 0
    {
      inner := Compounds.CompoundCodec(children);
      partialObject := None;
      size := 0;
    }

    method Preprocess(obj: Value)
      modifies this
      ensures partialObject == Some(obj) && size == old(size)
    {
      partialObject := Some(obj);
    }

    method Pack(values: Value) returns (r: Result<seq<byte>>)
      modifies this
      ensures partialObject == old(partialObject)
      ensures old(partialObject).None? ==> r == Err(AttributeError) && size == old(size)
      ensures old(partialObject).Some? ==>
        var spec := TuplePack(inner, old(partialObject).value, [values]);
        (spec.Err? ==> r == Err(spec.error) && size == old(size))
        && (spec.Ok? ==> r == Ok(spec.value.data) && size == spec.value.size)
    {
      if partialObject.None? {
        return Err(AttributeError);
      }
      var items := Elements(values);
      if items.Err? {
        return Err(items.error);
      }
      var packed := PackWith(inner, partialObject.value, items.value);
      if packed.Err? {
        return Err(packed.error);
      }
      size := packed.value.size;
      return Ok(packed.value.data);
    }

    method Unpack(buffer: seq<byte>) returns (r: Result<seq<Value>>)
      modifies this
      ensures partialObject == old(partialObject)
      ensures old(partialObject).None? ==> r == Err(AttributeError) && size == old(size)
      ensures old(partialObject).Some? ==>
        var spec := TupleUnpack(inner, old(partialObject).value, buffer);
        (spec.Err? ==> r == Err(spec.error) && size == old(size))
        && (spec.Ok? ==> r == Ok(spec.value.values) && size == spec.value.size)
    {
      if partialObject.None? {
        return Err(AttributeError);
      }
      var unpacked := UnpackWith(inner, partialObject.value, buffer);
      if unpacked.Err? {
        return Err(unpacked.error);
      }
      size := unpacked.value.size;
      return Ok([Tuple(unpacked.value.values)]);
    }

    method UnpackFrom(buffer: seq<byte>, offset: nat) returns (r: Result<seq<Value>>)
      modifies this
      ensures partialObject == old(partialObject)
      ensures old(partialObject).None? ==> r == Err(AttributeError) && size == old(size)
      ensures old(partialObject).Some? ==>
        var spec := TupleUnpackFrom(inner, old(partialObject).value, buffer, offset);
        (spec.Err? ==> r == Err(spec.error) && size == old(size))
        && (spec.Ok? ==> r == Ok(spec.value.values) && size == spec.value.size)
    {
      if partialObject.None? {
        return Err(AttributeError);
      }
      var unpacked := UnpackFromWith(inner, partialObject.value, buffer, offset);
      if unpacked.Err? {
        return Err(unpacked.error);
      }
      size := unpacked.value.size;
      return Ok([Tuple(unpacked.value.values)]);
    }
  }
}
