/** The tagged-union serializers of structured/serializers/unions.py: a
  * result map from decider results to single-value serializers, an optional
  * default, and two ways of deciding: from the object unpacked so far
  * (lookback) or from a probe read at the field's own position (lookahead). */
module Unions {
  import opened Outcomes
  import opened Values
  import opened Codecs

  /** What a union is given as a result or default: a type hint that carries
    * a serializer, or anything else. */
  datatype Hint = Serializable(codec: Codec) | NotSerializable

  /** The `default` argument: a falsy object (`None` among them) or a truthy
    * one. */
  datatype DefaultArg = Falsy | Truthy(hint: Hint)

  /** `validate_serializer`. */
  function ValidateSerializer(h: Hint): (r: Result<Codec>)
    ensures r.Ok? <==> h.Serializable? && h.codec.numValues == 1
    ensures h.NotSerializable? ==> r == Err(TypeError)
    ensures h.Serializable? && h.codec.numValues != 1 ==> r == Err(ValueError)
    ensures r.Ok? ==> r.value == h.codec
  {
    match h
    case NotSerializable => Err(TypeError)
    case Serializable(c) => if c.numValues != 1 then Err(ValueError) else Ok(c)
  }

  /** A constructed union: the validated result map, in the dict's order,
    * and the default. */
  datatype Union = Union(resultMap: seq<(Value, Codec)>, default: Option<Codec>)

  /** The keys of a dict are distinct. */
  predicate DistinctKeys<T>(entries: seq<(Value, T)>)
  {
    forall i, j :: 0 <= i < j < |entries| ==> entries[i].0 != entries[j].0
  }

  /** Every result of a union packs and unpacks one value. */
  predicate SingleValued(u: Union)
  {
    (forall i :: 0 <= i < |u.resultMap| ==> u.resultMap[i].1.numValues == 1)
    && (u.default.Some? ==> u.default.value.numValues == 1)
  }

  /** The dict comprehension over `result_map.items()`: the first entry that
    * fails validation decides the error. */
  function ValidateMap(entries: seq<(Value, Hint)>): (r: Result<seq<(Value, Codec)>>)
    ensures r.Ok? <==> forall i :: 0 <= i < |entries| ==> ValidateSerializer(entries[i].1).Ok?
    ensures r.Ok? ==> (|r.value| == |entries|
      && forall i :: 0 <= i < |entries| ==> r.value[i] == (entries[i].0, entries[i].1.codec))
    ensures r.Err? ==> exists i :: 0 <= i < |entries| && ValidateSerializer(entries[i].1) == Err(r.error)
  {
    if entries == [] then Ok([])
    else
      var c := ValidateSerializer(entries[0].1);
      if c.Err? then Err(c.error)
      else
        var rest := ValidateMap(entries[1..]);
        if rest.Err? then Err(rest.error)
        else Ok([(entries[0].0, c.value)] + rest.value)
  }

  /** `AUnion.__init__`: the default is validated first, and a falsy default
    * means none. */
  function NewUnion(entries: seq<(Value, Hint)>, default: DefaultArg): (r: Result<Union>)
    requires DistinctKeys(entries)
    ensures r.Ok? ==> SingleValued(r.value) && DistinctKeys(r.value.resultMap)
    ensures r.Ok? ==> (r.value.default.None? <==> default.Falsy?)
    ensures default.Truthy? && ValidateSerializer(default.hint).Err? ==> r == Err(ValidateSerializer(default.hint).error)
    ensures (default.Falsy? || ValidateSerializer(default.hint).Ok?) ==> (r.Ok? <==> ValidateMap(entries).Ok?)
  {
    var d: Result<Option<Codec>> :=
      if default.Falsy? then Ok(None)
      else
        var c := ValidateSerializer(default.hint);
        if c.Err? then Err(c.error) else Ok(Some(c.value));
    if d.Err? then Err(d.error)
    else
      var m := ValidateMap(entries);
      if m.Err? then Err(m.error)
      else
        assert forall i :: 0 <= i < |m.value| ==> m.value[i].0 == entries[i].0;
        Ok(Union(m.value, d.value))
  }

  /** `result_map[key]`, when the key is mapped. */
  function Lookup(entries: seq<(Value, Codec)>, key: Value): (r: Option<Codec>)
    ensures r.None? <==> forall i :: 0 <= i < |entries| ==> entries[i].0 != key
    ensures r.Some? ==> exists i :: 0 <= i < |entries| && entries[i] == (key, r.value)
  {
    if entries == [] then None
    else if entries[0].0 == key then Some(entries[0].1)
    else Lookup(entries[1..], key)
  }

  /** In a dict, the entry for a key is the one whose key it is. */
  lemma {:induction false} LookupFinds(entries: seq<(Value, Codec)>, i: nat)
    requires DistinctKeys(entries) && i < |entries|
    ensures Lookup(entries, entries[i].0) == Some(entries[i].1)
  {
    if i > 0 {
      assert entries[0].0 != entries[i].0;
      assert entries[1..][i - 1] == entries[i];
      LookupFinds(entries[1..], i - 1);
    }
  }

  /** `get_serializer`: without a default an unmapped result is a
    * ValueError; with one, `result_map.get(result, default)`. */
  function GetSerializer(u: Union, key: Value): (r: Result<Codec>)
    ensures u.default.None? ==> (r.Ok? <==> Lookup(u.resultMap, key).Some?)
    ensures r.Err? ==> r.error == ValueError
    ensures Lookup(u.resultMap, key).Some? ==> r == Ok(Lookup(u.resultMap, key).value)
    ensures u.default.Some? && Lookup(u.resultMap, key).None? ==> r == Ok(u.default.value)
  {
    var found := Lookup(u.resultMap, key);
    if found.Some? then Ok(found.value)
    else if u.default.None? then Err(ValueError)
    else Ok(u.default.value)
  }

  /** What a union answers for a result: never a serializer of more or
    * fewer than one value. */
  lemma {:induction false} GetSerializerSingle(u: Union, key: Value)
    requires SingleValued(u)
    ensures GetSerializer(u, key).Ok? ==> GetSerializer(u, key).value.numValues == 1
  {
    var found := Lookup(u.resultMap, key);
    if found.Some? {
      var i :| 0 <= i < |u.resultMap| && u.resultMap[i] == (key, found.value);
    }
  }

  /** A falsy default is no default: an unmapped result is refused. */
  lemma {:induction false} FalsyDefault(entries: seq<(Value, Hint)>, key: Value)
    requires DistinctKeys(entries) && NewUnion(entries, Falsy).Ok?
    requires forall i :: 0 <= i < |entries| ==> entries[i].0 != key
    ensures GetSerializer(NewUnion(entries, Falsy).value, key) == Err(ValueError)
  {
    var u := NewUnion(entries, Falsy).value;
    assert forall i :: 0 <= i < |u.resultMap| ==> u.resultMap[i].0 == entries[i].0;
  }

  /** The two deciders: a function of the object unpacked so far, or a
    * read-ahead serializer for unpacking and a write decider for packing. */
  datatype Decider =
    | Lookback(decider: Value -> Value)
    | Lookahead(readAhead: Codec, writeDecider: Value -> Value)

  /** `LookaheadDecider.__init__` refuses a read-ahead hint without a
    * serializer. */
  function NewLookahead(readAhead: Hint, writeDecider: Value -> Value): (r: Result<Decider>)
    ensures r.Ok? <==> readAhead.Serializable?
    ensures r.Err? ==> r.error == TypeError
    ensures r.Ok? ==> r.value == Lookahead(readAhead.codec, writeDecider)
  {
    if readAhead.NotSerializable? then Err(TypeError) else Ok(Lookahead(readAhead.codec, writeDecider))
  }

  /** Both deciders pack with the serializer their decider picks for the
    * object, and `size` is that serializer's. */
  function UnionPack(u: Union, d: Decider, obj: Value, vs: seq<Value>): (r: Result<Packed>)
  {
    var s := GetSerializer(u, if d.Lookback? then d.decider(obj) else d.writeDecider(obj));
    if s.Err? then Err(s.error) else PackWith(s.value, obj, vs)
  }

  /** The result the read-ahead serializer unpacks first, `tuple(...)[0]`. */
  function FirstValue(p: Result<Unpacked>): (r: Result<Value>)
    ensures r.Ok? <==> p.Ok? && |p.value.values| > 0
    ensures r.Ok? ==> r.value == p.value.values[0]
  {
    if p.Err? then Err(p.error)
    else if |p.value.values| == 0 then Err(IndexError)
    else Ok(p.value.values[0])
  }

  /** The serializer a probe's outcome selects: the probe's error, the
    * IndexError of an empty probe, or `get_serializer` of its first value. */
  function ProbeSelect(u: Union, p: Result<Unpacked>): (r: Result<Codec>)
  {
    var key := FirstValue(p);
    if key.Err? then Err(key.error) else GetSerializer(u, key.value)
  }

  /** The probe is the read-ahead serializer as constructed, never
    * preunpacked: it is run without the partial object. */
  function Probe(probe: Codec, bs: seq<byte>): Result<Unpacked>
  {
    UnpackWith(probe, NoneValue, bs)
  }

  function ProbeFrom(probe: Codec, bs: seq<byte>, off: nat): Result<Unpacked>
  {
    UnpackFromWith(probe, NoneValue, bs, off)
  }

  /** `unpack`: the lookback decider asks the object; the lookahead decider
    * probes the buffer and then unpacks the chosen serializer from the same
    * buffer, so the probed bytes are read again. */
  function UnionUnpack(u: Union, d: Decider, obj: Value, bs: seq<byte>): (r: Result<Unpacked>)
  {
    var s := if d.Lookback? then GetSerializer(u, d.decider(obj)) else ProbeSelect(u, Probe(d.readAhead, bs));
    if s.Err? then Err(s.error) else UnpackWith(s.value, obj, bs)
  }

  /** `unpack_from`: the same, with the probe and the value both at `off`. */
  function UnionUnpackFrom(u: Union, d: Decider, obj: Value, bs: seq<byte>, off: nat): (r: Result<Unpacked>)
  {
    var s := if d.Lookback? then GetSerializer(u, d.decider(obj)) else ProbeSelect(u, ProbeFrom(d.readAhead, bs, off));
    if s.Err? then Err(s.error) else UnpackFromWith(s.value, obj, bs, off)
  }

  function UnionCodec(u: Union, d: Decider): Codec
  {
    Codec(1,
      (obj: Value, vs: seq<Value>) => UnionPack(u, d, obj, vs),
      (obj: Value, bs: seq<byte>) => UnionUnpack(u, d, obj, bs),
      (obj: Value, bs: seq<byte>, off: nat) => UnionUnpackFrom(u, d, obj, bs, off))
  }

  /** A lookback union reads back what it wrote whenever the serializer its
    * decider picks does: the object decides both ways. */
  lemma {:induction false} LookbackRoundTrip(u: Union, f: Value -> Value, obj: Value, vs: seq<Value>, rest: seq<byte>, c: Codec)
    requires GetSerializer(u, f(obj)) == Ok(c)
    requires PackWith(c, obj, vs).Ok?
    requires UnpackWith(c, obj, PackWith(c, obj, vs).value.data + rest) == Ok(Unpacked(vs, PackWith(c, obj, vs).value.size))
    ensures UnionPack(u, Lookback(f), obj, vs) == PackWith(c, obj, vs)
    ensures UnionUnpack(u, Lookback(f), obj, UnionPack(u, Lookback(f), obj, vs).value.data + rest)
      == Ok(Unpacked(vs, UnionPack(u, Lookback(f), obj, vs).value.size))
  {
  }

  /** A lookahead union reads back what it wrote when the probe, run on the
    * packed bytes, yields a result that selects the serializer the write
    * decider chose; its `size` is that serializer's, without the probe. */
  lemma {:induction false} LookaheadRoundTrip(u: Union, probe: Codec, w: Value -> Value, obj: Value, vs: seq<Value>, rest: seq<byte>, c: Codec)
    requires GetSerializer(u, w(obj)) == Ok(c)
    requires PackWith(c, obj, vs).Ok?
    requires UnpackWith(c, obj, PackWith(c, obj, vs).value.data + rest) == Ok(Unpacked(vs, PackWith(c, obj, vs).value.size))
    requires ProbeSelect(u, Probe(probe, PackWith(c, obj, vs).value.data + rest)) == Ok(c)
    ensures UnionPack(u, Lookahead(probe, w), obj, vs) == PackWith(c, obj, vs)
    ensures UnionUnpack(u, Lookahead(probe, w), obj, UnionPack(u, Lookahead(probe, w), obj, vs).value.data + rest)
      == Ok(Unpacked(vs, UnionPack(u, Lookahead(probe, w), obj, vs).value.size))
  {
  }

  // ---- streams ----

  /** A readable stream: its bytes and the cursor `tell()` reports. */
  datatype Stream = Stream(data: seq<byte>, pos: nat)

  /** `unpack_read` of a serializer: it reads at the cursor and moves the
    * cursor past the bytes its `size` says it consumed. */
  function ReadWith(c: Codec, obj: Value, st: Stream): (r: Result<(Unpacked, Stream)>)
    ensures r.Ok? <==> UnpackFromWith(c, obj, st.data, st.pos).Ok?
    ensures r.Ok? ==> (r.value.0 == UnpackFromWith(c, obj, st.data, st.pos).value
      && r.value.1 == Stream(st.data, st.pos + r.value.0.size))
  {
    var u := UnpackFromWith(c, obj, st.data, st.pos);
    if u.Err? then Err(u.error) else Ok((u.value, Stream(st.data, st.pos + u.value.size)))
  }

  /** `seek(-n, SEEK_CUR)`. */
  function SeekBack(st: Stream, n: nat): (r: Stream)
    requires n <= st.pos
    ensures r.data == st.data && r.pos + n == st.pos
  {
    Stream(st.data, st.pos - n)
  }

  /** `LookaheadDecider.unpack_read`: probe, seek back by the probe's size,
    * then read the chosen serializer from where the probe started. */
  function LookaheadUnpackRead(u: Union, probe: Codec, obj: Value, st: Stream): (r: Result<(Unpacked, Stream)>)
  {
    var p := ReadWith(probe, NoneValue, st);
    if p.Err? then Err(p.error)
    else
      var key := FirstValue(Ok(p.value.0));
      if key.Err? then Err(key.error)
      else
        var back := SeekBack(p.value.1, p.value.0.size);
        var s := GetSerializer(u, key.value);
        if s.Err? then Err(s.error) else ReadWith(s.value, obj, back)
  }

  /** Reading a lookahead union from a stream is reading it from the
    * stream's bytes at the cursor, and it leaves the cursor just past the
    * value: the probe's bytes are given back before the real read. */
  lemma {:induction false} LookaheadReadRewinds(u: Union, probe: Codec, w: Value -> Value, obj: Value, st: Stream)
    ensures var r := UnionUnpackFrom(u, Lookahead(probe, w), obj, st.data, st.pos);
      LookaheadUnpackRead(u, probe, obj, st)
        == if r.Err? then Err(r.error) else Ok((r.value, Stream(st.data, st.pos + r.value.size)))
  {
    var p := ReadWith(probe, NoneValue, st);
    if p.Ok? {
      assert SeekBack(p.value.1, p.value.0.size) == st;
    }
  }

  /** The lookback union over a stream reads with the serializer its decider
    * picks, from the cursor. */
  function LookbackUnpackRead(u: Union, f: Value -> Value, obj: Value, st: Stream): (r: Result<(Unpacked, Stream)>)
  {
    var s := GetSerializer(u, f(obj));
    if s.Err? then Err(s.error) else ReadWith(s.value, obj, st)
  }

  // ---- the serializer object ----

  /** A union serializer object: `prepack` and `preunpack` store the object
    * being processed, and every operation then sets `size` to the size of
    * the serializer it delegated to. */
  class UnionSerializer {
    const union: Union
    const decider: Decider
    var partialObject: Option<Value>
    var size: nat

    constructor (u: Union, d: Decider)
      ensures union == u && decider == d
      ensures partialObject == None && size == 0
    {
      union := u;
      decider := d;
      partialObject := None;
      size := 0;
    }

    /** `prepack` and `preunpack`: remember the object, return this union. */
    method Preprocess(obj: Value)
      modifies this
      ensures partialObject == Some(obj) && size == old(size)
    {
      partialObject := Some(obj);
    }

    /** Reading `_partial_object` before any `prepack` is an AttributeError. */
    function PartialObject(): (r: Result<Value>)
      reads this
      ensures r.Ok? <==> partialObject.Some?
    {
      if partialObject.None? then Err(AttributeError) else Ok(partialObject.value)
    }

    method Pack(values: seq<Value>) returns (r: Result<seq<byte>>)
      modifies this
      ensures partialObject == old(partialObject)
      ensures old(partialObject).None? ==> r == Err(AttributeError) && size == old(size)
      ensures old(partialObject).Some? ==>
        var spec := UnionPack(union, decider, old(partialObject).value, values);
        (spec.Err? ==> r == Err(spec.error) && size == old(size))
        && (spec.Ok? ==> r == Ok(spec.value.data) && size == spec.value.size)
    {
      var obj := PartialObject();
      if obj.Err? {
        return Err(obj.error);
      }
      var result := if decider.Lookback? then decider.decider(obj.value) else decider.writeDecider(obj.value);
      var serializer := GetSerializer(union, result);
      if serializer.Err? {
        return Err(serializer.error);
      }
      var packed := PackWith(serializer.value, obj.value, values);
      if packed.Err? {
        return Err(packed.error);
      }
      size := packed.value.size;
      return Ok(packed.value.data);
    }

    /** Before `preunpack`, a lookback union fails on reading the object;
      * a lookahead union first runs its probe and `get_serializer`, whose
      * errors come first, and fails when the chosen serializer is
      * preunpacked with the object. */
    method Unpack(buffer: seq<byte>) returns (r: Result<seq<Value>>)
      modifies this
      ensures partialObject == old(partialObject)
      ensures old(partialObject).None? ==> size == old(size)
      ensures old(partialObject).None? && decider.Lookback? ==> r == Err(AttributeError)
      ensures old(partialObject).None? && decider.Lookahead? ==>
        var s := ProbeSelect(union, Probe(decider.readAhead, buffer));
        r == Err(if s.Err? then s.error else AttributeError)
      ensures old(partialObject).Some? ==>
        var spec := UnionUnpack(union, decider, old(partialObject).value, buffer);
        (spec.Err? ==> r == Err(spec.error) && size == old(size))
        && (spec.Ok? ==> r == Ok(spec.value.values) && size == spec.value.size)
    {
      var serializer: Result<Codec>;
      var obj: Result<Value>;
      if decider.Lookback? {
        obj := PartialObject();
        if obj.Err? {
          return Err(obj.error);
        }
        serializer := GetSerializer(union, decider.decider(obj.value));
      } else {
        var result := FirstValue(UnpackWith(decider.readAhead, NoneValue, buffer));
        if result.Err? {
          return Err(result.error);
        }
        serializer := GetSerializer(union, result.value);
        if serializer.Err? {
          return Err(serializer.error);
        }
        obj := PartialObject();
        if obj.Err? {
          return Err(obj.error);
        }
      }
      if serializer.Err? {
        return Err(serializer.error);
      }
      var unpacked := UnpackWith(serializer.value, obj.value, buffer);
      if unpacked.Err? {
        return Err(unpacked.error);
      }
      size := unpacked.value.size;
      return Ok(unpacked.value.values);
    }

    method UnpackFrom(buffer: seq<byte>, offset: nat) returns (r: Result<seq<Value>>)
      modifies this
      ensures partialObject == old(partialObject)
      ensures old(partialObject).None? ==> size == old(size)
      ensures old(partialObject).None? && decider.Lookback? ==> r == Err(AttributeError)
      ensures old(partialObject).None? && decider.Lookahead? ==>
        var s := ProbeSelect(union, ProbeFrom(decider.readAhead, buffer, offset));
        r == Err(if s.Err? then s.error else AttributeError)
      ensures old(partialObject).Some? ==>
        var spec := UnionUnpackFrom(union, decider, old(partialObject).value, buffer, offset);
        (spec.Err? ==> r == Err(spec.error) && size == old(size))
        && (spec.Ok? ==> r == Ok(spec.value.values) && size == spec.value.size)
    {
      var serializer: Result<Codec>;
      var obj: Result<Value>;
      if decider.Lookback? {
        obj := PartialObject();
        if obj.Err? {
          return Err(obj.error);
        }
        serializer := GetSerializer(union, decider.decider(obj.value));
      } else {
        var result := FirstValue(UnpackFromWith(decider.readAhead, NoneValue, buffer, offset));
        if result.Err? {
          return Err(result.error);
        }
        serializer := GetSerializer(union, result.value);
        if serializer.Err? {
          return Err(serializer.error);
        }
        obj := PartialObject();
        if obj.Err? {
          return Err(obj.error);
        }
      }
      if serializer.Err? {
        return Err(serializer.error);
      }
      var unpacked := UnpackFromWith(serializer.value, obj.value, buffer, offset);
      if unpacked.Err? {
        return Err(unpacked.error);
      }
      size := unpacked.value.size;
      return Ok(unpacked.value.values);
    }

    /** `unpack_read` over a stream; the lookahead decider rewinds the
      * stream after its probe. */
    method UnpackRead(stream: Stream) returns (r: Result<(seq<Value>, Stream)>)
      modifies this
      ensures partialObject == old(partialObject)
      ensures old(partialObject).None? ==> size == old(size)
      ensures old(partialObject).None? && decider.Lookback? ==> r == Err(AttributeError)
      ensures old(partialObject).None? && decider.Lookahead? ==>
        var s := ProbeSelect(union, ProbeFrom(decider.readAhead, stream.data, stream.pos));
        r == Err(if s.Err? then s.error else AttributeError)
      ensures old(partialObject).Some? ==>
        var spec := if decider.Lookback?
          then LookbackUnpackRead(union, decider.decider, old(partialObject).value, stream)
          else LookaheadUnpackRead(union, decider.readAhead, old(partialObject).value, stream);
        (spec.Err? ==> r == Err(spec.error) && size == old(size))
        && (spec.Ok? ==> r == Ok((spec.value.0.values, spec.value.1)) && size == spec.value.0.size)
    {
      var cursor := stream;
      var serializer: Result<Codec>;
      var obj: Result<Value>;
      if decider.Lookback? {
        obj := PartialObject();
        if obj.Err? {
          return Err(obj.error);
        }
        serializer := GetSerializer(union, decider.decider(obj.value));
      } else {
        var probed := ReadWith(decider.readAhead, NoneValue, stream);
        if probed.Err? {
          return Err(probed.error);
        }
        var result := FirstValue(Ok(probed.value.0));
        if result.Err? {
          return Err(result.error);
        }
        cursor := SeekBack(probed.value.1, probed.value.0.size);
        serializer := GetSerializer(union, result.value);
        if serializer.Err? {
          return Err(serializer.error);
        }
        obj := PartialObject();
        if obj.Err? {
          return Err(obj.error);
        }
      }
      if serializer.Err? {
        return Err(serializer.error);
      }
      var read := ReadWith(serializer.value, obj.value, cursor);
      if read.Err? {
        return Err(read.error);
      }
      size := read.value.0.size;
      return Ok((read.value.0.values, read.value.1));
    }
  }
}
