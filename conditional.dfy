/** `ConditionalSerializer` and `SkipSerializer` of
  * structured/serializers/conditional.py: a field that is present only when
  * a condition on the object holds, and otherwise reads back as defaults. */
module Conditionals {
  import opened Outcomes
  import opened Values
  import opened Codecs
  import Compounds

  /** `SkipSerializer(values)`: writes nothing, reads nothing and unpacks
    * to its values. */
  function SkipCodec(defaults: seq<Value>): (r: Codec)
    ensures r.numValues == |defaults|
  {
    Codec(|defaults|,
      (obj: Value, vs: seq<Value>) => Ok(Packed([], 0)),
      (obj: Value, bs: seq<byte>) => Ok(Unpacked(defaults, 0)),
      (obj: Value, bs: seq<byte>, off: nat) => Ok(Unpacked(defaults, 0)))
  }

  /** The skip serializer does not look at its input: whatever the values
    * or the buffer, it packs to no bytes and unpacks to its defaults. */
  lemma {:induction false} SkipIgnoresInput(defaults: seq<Value>, obj: Value, vs: seq<Value>, bs: seq<byte>, off: nat)
    ensures PackWith(SkipCodec(defaults), obj, vs) == Ok(Packed([], 0))
    ensures UnpackWith(SkipCodec(defaults), obj, bs) == Ok(Unpacked(defaults, 0))
    ensures UnpackFromWith(SkipCodec(defaults), obj, bs, off) == Ok(Unpacked(defaults, 0))
  {
  }

  /** A conditional field: the wrapped serializer, the condition on the
    * object and the defaults used when the condition fails. */
  datatype Conditional = Conditional(serializer: Codec, condition: Value -> bool, defaults: seq<Value>)

  /** There is one default per value of the wrapped serializer. */
  predicate Valid(cd: Conditional)
  {
    |cd.defaults| == cd.serializer.numValues
  }

  /** The constructor: a number of defaults other than `num_values` is a
    * ValueError. */
  function NewConditional(serializer: Codec, condition: Value -> bool, defaults: seq<Value>): (r: Result<Conditional>)
    ensures r.Ok? <==> |defaults| == serializer.numValues
    ensures r.Err? ==> r.error == ValueError
    ensures r.Ok? ==> Valid(r.value) && r.value == Conditional(serializer, condition, defaults)
  {
    if serializer.numValues != |defaults| then Err(ValueError)
    else Ok(Conditional(serializer, condition, defaults))
  }

  /** `prepack` and `preunpack`: the wrapped serializer when the condition
    * holds, the skip serializer over the defaults otherwise. */
  function Select(cd: Conditional, obj: Value): (r: Codec)
    requires Valid(cd)
    ensures r.numValues == cd.serializer.numValues
    ensures cd.condition(obj) ==> r == cd.serializer
    ensures !cd.condition(obj) ==> r == SkipCodec(cd.defaults)
  {
    if cd.condition(obj) then cd.serializer else SkipCodec(cd.defaults)
  }

  /** The conditional field inside a compound: each operation on the object
    * goes to what `prepack`/`preunpack` selected for it. */
  function ConditionalCodec(cd: Conditional): (r: Codec)
    requires Valid(cd)
    ensures r.numValues == cd.serializer.numValues
  {
    Codec(cd.serializer.numValues,
      (obj: Value, vs: seq<Value>) => PackWith(Select(cd, obj), obj, vs),
      (obj: Value, bs: seq<byte>) => UnpackWith(Select(cd, obj), obj, bs),
      (obj: Value, bs: seq<byte>, off: nat) => UnpackFromWith(Select(cd, obj), obj, bs, off))
  }

  /** The conditional field selects for each object: when the condition
    * holds, the wrapped serializer prepacked (or preunpacked) with the
    * object; otherwise nothing is written or read and the defaults come
    * back. */
  lemma {:induction false} ConditionalCodecSelects(cd: Conditional, obj: Value, vs: seq<Value>, bs: seq<byte>, off: nat)
    requires Valid(cd)
    ensures cd.condition(obj) ==>
      (PackWith(ConditionalCodec(cd), obj, vs) == PackWith(cd.serializer, obj, vs)
       && UnpackWith(ConditionalCodec(cd), obj, bs) == UnpackWith(cd.serializer, obj, bs)
       && UnpackFromWith(ConditionalCodec(cd), obj, bs, off) == UnpackFromWith(cd.serializer, obj, bs, off))
    ensures !cd.condition(obj) ==>
      (PackWith(ConditionalCodec(cd), obj, vs) == Ok(Packed([], 0))
       && UnpackWith(ConditionalCodec(cd), obj, bs) == Ok(Unpacked(cd.defaults, 0))
       && UnpackFromWith(ConditionalCodec(cd), obj, bs, off) == Ok(Unpacked(cd.defaults, 0)))
  {
    if cd.condition(obj) {
      assert Select(cd, obj) == cd.serializer;
    } else {
      SkipIgnoresInput(cd.defaults, obj, vs, bs, off);
    }
  }

  /** `prepack` and `preunpack` as written (conditional.py:63-67) return the
    * selected serializer without prepacking it, and the compound calls it
    * as returned (api.py:388-389).  A wrapped serializer whose class keeps
    * the partial object in its own `prepack` (`keepsObject`: an array, a
    * union or a tuple serializer) then reads an attribute that was never
    * set, an AttributeError; any other serializer does not look at the
    * object. */
  function ConditionalCodecAsWritten(cd: Conditional, keepsObject: bool): (r: Codec)
    requires Valid(cd)
    ensures r.numValues == cd.serializer.numValues
  {
    Codec(cd.serializer.numValues,
      (obj: Value, vs: seq<Value>) =>
        if cd.condition(obj) && keepsObject then Err(AttributeError) else PackWith(Select(cd, obj), obj, vs),
      (obj: Value, bs: seq<byte>) =>
        if cd.condition(obj) && keepsObject then Err(AttributeError) else UnpackWith(Select(cd, obj), obj, bs),
      (obj: Value, bs: seq<byte>, off: nat) =>
        if cd.condition(obj) && keepsObject then Err(AttributeError) else UnpackFromWith(Select(cd, obj), obj, bs, off))
  }

  /** As written, a present array, union or tuple field fails with an
    * AttributeError on every call, where the corrected field hands the
    * object to the wrapped serializer; a skipped field, or one wrapping a
    * serializer that ignores the object, behaves the same both ways. */
  lemma {:induction false} ConditionalNotPrepacked(cd: Conditional, keepsObject: bool, obj: Value, vs: seq<Value>, bs: seq<byte>, off: nat)
    requires Valid(cd)
    ensures cd.condition(obj) && keepsObject ==>
      (PackWith(ConditionalCodecAsWritten(cd, keepsObject), obj, vs) == Err(AttributeError)
       && UnpackWith(ConditionalCodecAsWritten(cd, keepsObject), obj, bs) == Err(AttributeError)
       && UnpackFromWith(ConditionalCodecAsWritten(cd, keepsObject), obj, bs, off) == Err(AttributeError))
    ensures !(cd.condition(obj) && keepsObject) ==>
      (PackWith(ConditionalCodecAsWritten(cd, keepsObject), obj, vs) == PackWith(ConditionalCodec(cd), obj, vs)
       && UnpackWith(ConditionalCodecAsWritten(cd, keepsObject), obj, bs) == UnpackWith(ConditionalCodec(cd), obj, bs)
       && UnpackFromWith(ConditionalCodecAsWritten(cd, keepsObject), obj, bs, off)
         == UnpackFromWith(ConditionalCodec(cd), obj, bs, off))
  {
  }

  /** `with_byte_order`: the wrapped serializer in the new byte order,
    * rebuilt with the same condition and defaults. */
  function ConditionalWithByteOrder(cd: Conditional, reordered: Codec): (r: Result<Conditional>)
    requires Valid(cd) && reordered.numValues == cd.serializer.numValues
    ensures r.Ok? && Valid(r.value)
    ensures r.value.serializer == reordered
    ensures r.value.condition == cd.condition && r.value.defaults == cd.defaults
  {
    NewConditional(reordered, cd.condition, cd.defaults)
  }

  /** When the condition holds the field reads back what it wrote, as the
    * wrapped serializer does; when it fails the field writes nothing and
    * reads back its defaults, so it round-trips exactly the defaults. */
  lemma {:induction false} ConditionalRoundTrip(cd: Conditional, obj: Value, vs: seq<Value>, rest: seq<byte>)
    requires Valid(cd)
    requires cd.condition(obj) ==> (PackWith(cd.serializer, obj, vs).Ok?
      && UnpackWith(cd.serializer, obj, PackWith(cd.serializer, obj, vs).value.data + rest)
        == Ok(Unpacked(vs, PackWith(cd.serializer, obj, vs).value.size)))
    ensures PackWith(ConditionalCodec(cd), obj, vs).Ok?
    ensures !cd.condition(obj) ==> PackWith(ConditionalCodec(cd), obj, vs) == Ok(Packed([], 0))
    ensures var p := PackWith(ConditionalCodec(cd), obj, vs).value;
      (UnpackWith(ConditionalCodec(cd), obj, p.data + rest) == Ok(Unpacked(vs, p.size)))
        <==> (cd.condition(obj) || vs == cd.defaults)
  {
  }

  /** A skipped field inside a record: a compound `a + [field] + b` packs
    * what `a` and `b` pack, the field's values being passed over. */
  lemma {:induction false} SkippedFieldPack(a: seq<Codec>, b: seq<Codec>, cd: Conditional, obj: Value, vs: seq<Value>)
    requires Valid(cd) && !cd.condition(obj)
    ensures Compounds.CompoundPack(a + [ConditionalCodec(cd)] + b, obj, vs)
      == Compounds.ThenPack(Compounds.CompoundPack(a, obj, vs),
           Compounds.CompoundPack(b, obj, Drop(vs, Compounds.SumNumValues(a) + |cd.defaults|)))
  {
    var c := ConditionalCodec(cd);
    var n := Compounds.SumNumValues(a);
    Compounds.CompoundPackAppend(a + [c], b, obj, vs);
    Compounds.CompoundPackAppend(a, [c], obj, vs);
    Compounds.SumFromAppend(a, [c], 0);
    assert Compounds.SumNumValues([c]) == |cd.defaults| by {
      assert Compounds.SumFrom([c], 1) == 0;
    }
    assert Compounds.CompoundPack([c], obj, Drop(vs, n)) == Ok(Packed([], 0)) by {
      var w := Drop(vs, n);
      assert Compounds.PackFrom([c], 1, obj, w, |cd.defaults|) == Ok(Packed([], 0));
      assert PackWith(c, obj, Slice(w, 0, |cd.defaults|)) == Ok(Packed([], 0));
      assert Compounds.CompoundPack([c], obj, w) == Compounds.PackChild([c], 0, obj, w, 0);
      var none: seq<byte> := [];
      assert none + none == none;
    }
    Compounds.ThenPackUnitRight(Compounds.CompoundPack(a, obj, vs));
  }

  /** ... and unpacks what `a` and `b` unpack, with the field's defaults
    * between them and no bytes consumed for it. */
  lemma {:induction false} SkippedFieldUnpack(a: seq<Codec>, b: seq<Codec>, cd: Conditional, obj: Value, bs: seq<byte>)
    requires Valid(cd) && !cd.condition(obj)
    ensures var ra := Compounds.CompoundUnpack(a, obj, bs);
      Compounds.CompoundUnpack(a + [ConditionalCodec(cd)] + b, obj, bs)
        == if ra.Err? then ra
           else Compounds.ThenUnpack(Ok(Unpacked(ra.value.values + cd.defaults, ra.value.size)),
             Compounds.CompoundUnpack(b, obj, Drop(bs, ra.value.size)))
  {
    var c := ConditionalCodec(cd);
    var ra := Compounds.CompoundUnpack(a, obj, bs);
    Compounds.CompoundUnpackAppend(a + [c], b, obj, bs);
    Compounds.CompoundUnpackAppend(a, [c], obj, bs);
    if ra.Ok? {
      var tail := Drop(bs, ra.value.size);
      assert Compounds.CompoundUnpack([c], obj, tail) == Ok(Unpacked(cd.defaults, 0)) by {
        assert Select(cd, obj) == SkipCodec(cd.defaults);
        assert UnpackWith(Select(cd, obj), obj, Drop(tail, 0)) == Ok(Unpacked(cd.defaults, 0));
        assert UnpackWith(c, obj, Drop(tail, 0)) == Ok(Unpacked(cd.defaults, 0));
        assert Compounds.UnpackAt([c], 1, obj, tail, 0) == Ok(Unpacked([], 0));
        assert Compounds.CompoundUnpack([c], obj, tail) == Compounds.UnpackChild([c], 0, obj, tail, 0);
        assert cd.defaults + [] == cd.defaults;
      }
    }
  }
}
