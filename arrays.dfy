/** The array serializers of structured/serializers/arrays.py: the general
  * `ArraySerializer` (a header, then the items one after the other), and
  * the two specializations for items that `struct` can pack directly. */
module Arrays {
  import opened Outcomes
  import opened Values
  import opened PyStruct
  import opened Structs
  import opened Codecs
  import opened Compounds
  import opened Semantics

  // ---- the header ----

  /** `HeaderSerializer`: nothing, or a struct of one or two integers. */
  datatype HeaderSer = NullHeader | StructHeader(st: StructSer)

  function HeaderNumValues(h: HeaderSer): nat
  {
    match h
    case NullHeader => 0
    case StructHeader(st) => StructNumValues(st)
  }

  /** `header_serializer.size`, which the loops read before the header is
    * packed or unpacked: a struct's size does not depend on the call. */
  function HeaderSize(h: HeaderSer): nat
  {
    match h
    case NullHeader => 0
    case StructHeader(st) => StructSize(st)
  }

  function HeaderPack(h: HeaderSer, vs: seq<Value>): (r: Result<Packed>)
    ensures r.Ok? ==> r.value.size == HeaderSize(h) && |r.value.data| == HeaderSize(h)
    ensures h.NullHeader? ==> r == Ok(Packed([], 0))
  {
    match h
    case NullHeader => Ok(Packed([], 0))
    case StructHeader(st) => StructPack(st, vs)
  }

  function HeaderUnpack(h: HeaderSer, bs: seq<byte>): (r: Result<Unpacked>)
    ensures r.Ok? ==> r.value.size == HeaderSize(h) && |r.value.values| == HeaderNumValues(h)
    ensures r.Err? <==> |bs| < HeaderSize(h)
  {
    match h
    case NullHeader => Ok(Unpacked([], 0))
    case StructHeader(st) => StructUnpack(st, bs)
  }

  function HeaderUnpackFrom(h: HeaderSer, bs: seq<byte>, off: nat): (r: Result<Unpacked>)
    ensures r.Ok? ==> r.value.size == HeaderSize(h) && |r.value.values| == HeaderNumValues(h)
  {
    match h
    case NullHeader => Ok(Unpacked([], 0))
    case StructHeader(st) => StructUnpackFrom(st, bs, off)
  }

  /** `static_length >= 0` marks a fixed-length array. */
  predicate IsStatic(staticLength: int) { staticLength >= 0 }

  /** Whether the header carries the items' byte count: its one value for a
    * fixed-length array, its second value for a counted one. */
  predicate HasDataSize(h: HeaderSer, staticLength: int)
  {
    if IsStatic(staticLength) then HeaderNumValues(h) == 1 else HeaderNumValues(h) == 2
  }

  /** The header shapes `_header_pack_values` and `_header_unpack_values`
    * expect: at most one value (the data size) for a fixed length, the
    * count and optionally the data size otherwise. */
  predicate HeaderFits(h: HeaderSer, staticLength: int)
  {
    if IsStatic(staticLength) then HeaderNumValues(h) <= 1
    else 1 <= HeaderNumValues(h) <= 2
  }

  /** The values `_header_pack_values` (arrays.py:55-76) hands to the header
    * once the length has been accepted. */
  function HeaderFields(h: HeaderSer, staticLength: int, count: nat, dataSize: nat): seq<Value>
  {
    if IsStatic(staticLength) then
      (if HeaderNumValues(h) == 1 then [Int(dataSize)] else [])
    else if HeaderNumValues(h) == 2 then [Int(count), Int(dataSize)]
    else [Int(count)]
  }

  /** `_header_pack_values`: a fixed-length array refuses any other length. */
  function HeaderPackValues(h: HeaderSer, staticLength: int, count: nat, dataSize: nat): (r: Result<seq<Value>>)
    ensures r.Err? <==> IsStatic(staticLength) && count != staticLength
    ensures r.Err? ==> r.error == ValueError
    ensures r.Ok? ==> |r.value| == (if IsStatic(staticLength) then 0 else 1) + (if HasDataSize(h, staticLength) then 1 else 0)
  {
    if IsStatic(staticLength) && count != staticLength then Err(ValueError)
    else Ok(HeaderFields(h, staticLength, count, dataSize))
  }

  /** An integer header value; `range()` also takes a bool. */
  function IntOf(v: Value): (r: Result<int>)
    ensures r.Err? <==> !(v.Int? || v.Bool?)
    ensures v.Int? ==> r == Ok(v.i)
  {
    match v
    case Int(i) => Ok(i)
    case Bool(b) => Ok(if b then 1 else 0)
    case _ => Err(TypeError)
  }

  /** `_header_unpack_values` (arrays.py:78-92): the pair (count, data size),
    * with the static length for the count and -1 for a data size that is
    * not in the header. */
  function HeaderUnpackValues(h: HeaderSer, staticLength: int, hv: seq<Value>): (r: Result<(int, int)>)
    ensures r.Ok? && IsStatic(staticLength) ==> r.value.0 == staticLength
    ensures r.Ok? && !HasDataSize(h, staticLength) ==> r.value.1 == -1
  {
    if IsStatic(staticLength) then
      if HeaderNumValues(h) == 1 then
        if |hv| == 0 then Err(IndexError)
        else
          var ds := IntOf(hv[0]);
          if ds.Err? then Err(ds.error) else Ok((staticLength, ds.value))
      else Ok((staticLength, -1))
    else if HeaderNumValues(h) == 2 then
      // `count, data_size = header_values`
      if |hv| != 2 then Err(ValueError)
      else
        var n := IntOf(hv[0]);
        var ds := IntOf(hv[1]);
        if n.Err? then Err(n.error)
        else if ds.Err? then Err(ds.error)
        else Ok((n.value, ds.value))
    else if |hv| == 0 then Err(IndexError)
    else
      var n := IntOf(hv[0]);
      if n.Err? then Err(n.error) else Ok((n.value, -1))
  }

  /** What the header's values say once packed and read back: the count and
    * the data size, or -1 for a data size the header does not hold. */
  lemma {:induction false} HeaderValuesRoundTrip(h: HeaderSer, staticLength: int, count: nat, dataSize: nat)
    requires HeaderFits(h, staticLength)
    requires IsStatic(staticLength) ==> count == staticLength
    ensures HeaderPackValues(h, staticLength, count, dataSize).Ok?
    ensures HeaderUnpackValues(h, staticLength, HeaderPackValues(h, staticLength, count, dataSize).value)
      == Ok((count, if HasDataSize(h, staticLength) then dataSize else -1))
  {
  }

  /** `_check_data_size` (arrays.py:94-98): a declared size of -1 accepts
    * anything. */
  predicate DataSizeMatches(expected: int, actual: nat)
  {
    expected < 0 || expected == actual
  }

  // ---- the item loops ----

  /** The items from `k` on, each packed by the prepacked item serializer
    * (arrays.py:112-114). */
  function PackItems(c: Codec, obj: Value, items: seq<Value>, k: nat): Result<Packed>
    decreases |items| - k
  {
    if k >= |items| then Ok(Packed([], 0))
    else ThenPack(PackWith(c, obj, [items[k]]), PackItems(c, obj, items, k + 1))
  }

  /** `n` more items read from `buffer[pos:]` on (arrays.py:143-145); each
    * item's values extend the list and the next one starts after it. */
  function UnpackItems(c: Codec, obj: Value, bs: seq<byte>, pos: nat, n: nat): Result<Unpacked>
    decreases n
  {
    if n == 0 then Ok(Unpacked([], 0))
    else
      var head := UnpackWith(c, obj, Drop(bs, pos));
      if head.Err? then head
      else ThenUnpack(head, UnpackItems(c, obj, bs, pos + head.value.size, n - 1))
  }

  /** The `unpack_from` loop (arrays.py:156-158): each item is read at `pos`. */
  function UnpackItemsFrom(c: Codec, obj: Value, bs: seq<byte>, pos: nat, n: nat): Result<Unpacked>
    decreases n
  {
    if n == 0 then Ok(Unpacked([], 0))
    else
      var head := UnpackFromWith(c, obj, bs, pos);
      if head.Err? then head
      else ThenUnpack(head, UnpackItemsFrom(c, obj, bs, pos + head.value.size, n - 1))
  }

  /** `range(count)` runs no turn for a negative count. */
  function Turns(count: int): nat { if count < 0 then 0 else count }

  // ---- ArraySerializer ----

  /** `ArraySerializer.pack` (arrays.py:108-118) with the partial object
    * `obj`: the header bytes, then every item's bytes; the header receives
    * the count and the items' byte count, and `size` is the total. */
  function ArrayPack(h: HeaderSer, c: Codec, staticLength: int, obj: Value, vs: seq<Value>): (r: Result<Packed>)
    ensures |vs| == 0 ==> r == Err(IndexError)
    ensures r.Ok? ==> r.value.size >= HeaderSize(h)
  {
    if |vs| == 0 then Err(IndexError)
    else
      var items := Elements(vs[0]);
      if items.Err? then Err(items.error)
      else
        var body := PackItems(c, obj, items.value, 0);
        if body.Err? then Err(body.error)
        else
          var hv := HeaderPackValues(h, staticLength, |items.value|, body.value.size);
          if hv.Err? then Err(hv.error)
          else
            var hd := HeaderPack(h, hv.value);
            if hd.Err? then Err(hd.error)
            else Ok(Packed(hd.value.data + body.value.data, HeaderSize(h) + body.value.size))
  }

  /** The header read (arrays.py:138-139), then the pair (count, data size)
    * taken from its values. */
  function DecodeHeader(h: HeaderSer, staticLength: int, hd: Result<Unpacked>): Result<(int, int)>
  {
    if hd.Err? then Err(hd.error) else HeaderUnpackValues(h, staticLength, hd.value.values)
  }

  /** The end of both unpack loops (arrays.py:146-148): the declared data
    * size is checked against the bytes the items took, and the result is
    * the one list of the items' values. */
  function CheckedList(h: HeaderSer, dataSize: int, body: Result<Unpacked>): (r: Result<Unpacked>)
    ensures r.Ok? <==> body.Ok? && DataSizeMatches(dataSize, body.value.size)
    ensures r.Ok? ==> r.value == Unpacked([List(body.value.values)], HeaderSize(h) + body.value.size)
  {
    if body.Err? then Err(body.error)
    else if !DataSizeMatches(dataSize, body.value.size) then Err(ValueError)
    else Ok(Unpacked([List(body.value.values)], HeaderSize(h) + body.value.size))
  }

  /** `ArraySerializer.unpack` (arrays.py:137-148): the header decides the
    * count, that many items are read after it, and a declared data size
    * must equal the bytes they took.  The single value is the item list. */
  function ArrayUnpack(h: HeaderSer, c: Codec, staticLength: int, obj: Value, bs: seq<byte>): (r: Result<Unpacked>)
    ensures r.Ok? ==> |r.value.values| == 1 && r.value.values[0].List? && r.value.size >= HeaderSize(h)
    ensures |bs| < HeaderSize(h) ==> r.Err?
  {
    var cd := DecodeHeader(h, staticLength, HeaderUnpack(h, bs));
    if cd.Err? then Err(cd.error)
    else CheckedList(h, cd.value.1, UnpackItems(c, obj, bs, HeaderSize(h), Turns(cd.value.0)))
  }

  /** `ArraySerializer.unpack_from` (arrays.py:150-161). */
  function ArrayUnpackFrom(h: HeaderSer, c: Codec, staticLength: int, obj: Value, bs: seq<byte>, off: nat): (r: Result<Unpacked>)
    ensures r.Ok? ==> |r.value.values| == 1 && r.value.values[0].List? && r.value.size >= HeaderSize(h)
  {
    var cd := DecodeHeader(h, staticLength, HeaderUnpackFrom(h, bs, off));
    if cd.Err? then Err(cd.error)
    else CheckedList(h, cd.value.1, UnpackItemsFrom(c, obj, bs, off + HeaderSize(h), Turns(cd.value.0)))
  }

  /** An `ArraySerializer` as a member of a compound: one value, the list. */
  function ArrayCodec(h: HeaderSer, c: Codec, staticLength: int): Codec
  {
    Codec(1,
      (obj: Value, vs: seq<Value>) => ArrayPack(h, c, staticLength, obj, vs),
      (obj: Value, bs: seq<byte>) => ArrayUnpack(h, c, staticLength, obj, bs),
      (obj: Value, bs: seq<byte>, off: nat) => ArrayUnpackFrom(h, c, staticLength, obj, bs, off))
  }

  /** What a successful `pack` wrote: the header with the count and the
    * items' byte count, then the items' bytes; `size` counts both. */
  lemma {:induction false} ArrayPackLayout(h: HeaderSer, c: Codec, staticLength: int, obj: Value, vs: seq<Value>)
    requires ArrayPack(h, c, staticLength, obj, vs).Ok?
    ensures |vs| > 0 && Elements(vs[0]).Ok? && PackItems(c, obj, Elements(vs[0]).value, 0).Ok?
    ensures var items := Elements(vs[0]).value;
      var body := PackItems(c, obj, items, 0).value;
      var hd := HeaderPack(h, HeaderFields(h, staticLength, |items|, body.size));
      hd.Ok? && ArrayPack(h, c, staticLength, obj, vs) == Ok(Packed(hd.value.data + body.data, HeaderSize(h) + body.size))
  {
  }

  /** A fixed-length array refuses a list of any other length
    * (arrays.py:58-64) once its items have packed. */
  lemma {:induction false} ArrayPackWrongLength(h: HeaderSer, c: Codec, staticLength: int, obj: Value, items: seq<Value>)
    requires IsStatic(staticLength) && |items| != staticLength
    requires PackItems(c, obj, items, 0).Ok?
    ensures ArrayPack(h, c, staticLength, obj, [List(items)]) == Err(ValueError)
  {
  }

  // ---- round trip ----

  /** An item the item serializer packs into exactly `size` bytes and reads
    * back from the front of any buffer that starts with them. */
  ghost predicate ItemRoundTrips(c: Codec, obj: Value, x: Value)
  {
    PackWith(c, obj, [x]).Ok?
    && |PackWith(c, obj, [x]).value.data| == PackWith(c, obj, [x]).value.size
    && forall rest: seq<byte> ::
         UnpackWith(c, obj, PackWith(c, obj, [x]).value.data + rest) == Ok(Unpacked([x], PackWith(c, obj, [x]).value.size))
  }

  /** The items packed one after another are read back one after another,
    * whatever precedes and follows them. */
  lemma {:induction false} ItemsRoundTrip(c: Codec, obj: Value, items: seq<Value>, k: nat, pre: seq<byte>, rest: seq<byte>)
    requires k <= |items|
    requires forall x :: x in items ==> ItemRoundTrips(c, obj, x)
    ensures PackItems(c, obj, items, k).Ok?
    ensures |PackItems(c, obj, items, k).value.data| == PackItems(c, obj, items, k).value.size
    ensures UnpackItems(c, obj, pre + PackItems(c, obj, items, k).value.data + rest, |pre|, |items| - k)
      == Ok(Unpacked(items[k..], PackItems(c, obj, items, k).value.size))
    decreases |items| - k
  {
    if k < |items| {
      var x := items[k];
      assert x in items;
      var hd := PackWith(c, obj, [x]).value;
      ItemsRoundTrip(c, obj, items, k + 1, pre + hd.data, rest);
      var tl := PackItems(c, obj, items, k + 1).value;
      var bs := pre + (hd.data + tl.data) + rest;
      assert bs == pre + hd.data + tl.data + rest;
      assert bs == pre + (hd.data + (tl.data + rest));
      DropPrefix(pre, hd.data + (tl.data + rest));
      assert UnpackWith(c, obj, hd.data + (tl.data + rest)) == Ok(Unpacked([x], hd.size));
      assert items[k..] == [x] + items[k + 1..];
    } else {
      assert items[k..] == [];
    }
  }

  /** Reading a struct header ignores what follows it. */
  lemma {:induction false} HeaderRoundTrip(h: HeaderSer, hv: seq<Value>, rest: seq<byte>)
    requires h.StructHeader? ==> CanonicalValues(Expand(h.st.fmt), hv)
    ensures HeaderPack(h, hv).Ok?
    ensures HeaderUnpack(h, HeaderPack(h, hv).value.data + rest)
      == Ok(Unpacked(if h.NullHeader? then [] else hv, HeaderSize(h)))
  {
    if h.StructHeader? {
      StructRoundTrip(h.st, hv);
      var data := HeaderPack(h, hv).value.data;
      assert (data + rest)[..StructSize(h.st)] == data;
      assert data[..StructSize(h.st)] == data;
    }
  }

  /** Header values a struct header can represent: for integer fields, a
    * count and a data size within the fields' ranges. */
  ghost predicate HeaderHolds(h: HeaderSer, hv: seq<Value>)
  {
    h.StructHeader? ==> CanonicalValues(Expand(h.st.fmt), hv)
  }

  /** `pack` of a list whose items and header values all pack. */
  lemma {:induction false} ArrayPackOf(h: HeaderSer, c: Codec, staticLength: int, obj: Value, items: seq<Value>)
    requires IsStatic(staticLength) ==> |items| == staticLength
    requires PackItems(c, obj, items, 0).Ok?
    requires HeaderPack(h, HeaderFields(h, staticLength, |items|, PackItems(c, obj, items, 0).value.size)).Ok?
    ensures ArrayPack(h, c, staticLength, obj, [List(items)])
      == Ok(Packed(HeaderPack(h, HeaderFields(h, staticLength, |items|, PackItems(c, obj, items, 0).value.size)).value.data
                   + PackItems(c, obj, items, 0).value.data,
                   HeaderSize(h) + PackItems(c, obj, items, 0).value.size))
  {
  }

  /** The header bytes a fitting header packs decode to the count and the
    * data size (or -1), whatever follows them. */
  lemma {:induction false} HeaderDecodes(h: HeaderSer, staticLength: int, count: nat, dataSize: nat, rest: seq<byte>)
    requires HeaderFits(h, staticLength) && (IsStatic(staticLength) ==> count == staticLength)
    requires HeaderHolds(h, HeaderFields(h, staticLength, count, dataSize))
    ensures HeaderPack(h, HeaderFields(h, staticLength, count, dataSize)).Ok?
    ensures DecodeHeader(h, staticLength, HeaderUnpack(h, HeaderPack(h, HeaderFields(h, staticLength, count, dataSize)).value.data + rest))
      == Ok((count, if HasDataSize(h, staticLength) then dataSize else -1))
  {
    HeaderRoundTrip(h, HeaderFields(h, staticLength, count, dataSize), rest);
    HeaderValuesRoundTrip(h, staticLength, count, dataSize);
  }

  /** `unpack` once the header and the items have been read. */
  lemma {:induction false} ArrayUnpackOf(h: HeaderSer, c: Codec, staticLength: int, obj: Value, bs: seq<byte>, count: nat, dataSize: int,
                      body: Unpacked)
    requires DecodeHeader(h, staticLength, HeaderUnpack(h, bs)) == Ok((count, dataSize))
    requires UnpackItems(c, obj, bs, HeaderSize(h), count) == Ok(body) && DataSizeMatches(dataSize, body.size)
    ensures ArrayUnpack(h, c, staticLength, obj, bs) == Ok(Unpacked([List(body.values)], HeaderSize(h) + body.size))
  {
  }

  /** An array of items that round-trip, with a header that fits its length
    * and can hold its count and data size, unpacks to the same list from
    * the bytes it packs to, however many bytes follow them. */
  lemma {:induction false} ArrayRoundTrip(h: HeaderSer, c: Codec, staticLength: int, obj: Value, items: seq<Value>, rest: seq<byte>)
    requires HeaderFits(h, staticLength)
    requires IsStatic(staticLength) ==> |items| == staticLength
    requires forall x :: x in items ==> ItemRoundTrips(c, obj, x)
    requires PackItems(c, obj, items, 0).Ok?
      && HeaderHolds(h, HeaderFields(h, staticLength, |items|, PackItems(c, obj, items, 0).value.size))
    ensures ArrayPack(h, c, staticLength, obj, [List(items)]).Ok?
    ensures var p := ArrayPack(h, c, staticLength, obj, [List(items)]).value;
      ArrayUnpack(h, c, staticLength, obj, p.data + rest) == Ok(Unpacked([List(items)], p.size))
  {
    hide *;
    var body := PackItems(c, obj, items, 0).value;
    var hv := HeaderFields(h, staticLength, |items|, body.size);
    HeaderDecodes(h, staticLength, |items|, body.size, body.data + rest);
    var hd := HeaderPack(h, hv).value;
    ArrayPackOf(h, c, staticLength, obj, items);
    var bs := hd.data + body.data + rest;
    assert bs == hd.data + (body.data + rest);
    ItemsRoundTrip(c, obj, items, 0, hd.data, rest);
    assert items[0..] == items;
    ArrayUnpackOf(h, c, staticLength, obj, bs, |items|, if HasDataSize(h, staticLength) then body.size else -1,
      Unpacked(items, body.size));
  }

  // ---- unpack_from agrees with unpack ----

  lemma {:induction false} UnpackItemsFromConsistent(c: Codec, obj: Value, bs: seq<byte>, off: nat, pos: nat, n: nat)
    requires OffsetConsistent(c)
    ensures UnpackItemsFrom(c, obj, bs, off + pos, n) == UnpackItems(c, obj, Drop(bs, off), pos, n)
    decreases n
  {
    if n > 0 {
      DropDrop(bs, off, pos);
      var head := UnpackFromWith(c, obj, bs, off + pos);
      assert head == UnpackWith(c, obj, Drop(Drop(bs, off), pos));
      if head.Ok? {
        UnpackItemsFromConsistent(c, obj, bs, off, pos + head.value.size, n - 1);
      }
    }
  }

  lemma {:induction false} HeaderOffsetConsistent(h: HeaderSer, bs: seq<byte>, off: nat)
    requires off <= |bs|
    ensures HeaderUnpackFrom(h, bs, off) == HeaderUnpack(h, Drop(bs, off))
  {
    DropIsSuffix(bs, off);
    if h.StructHeader? {
      StructUnpackFromIsUnpack(h.st, bs, off);
    }
  }

  /** With an item serializer whose `unpack_from` reads what `unpack` reads
    * from the buffer's tail, so does the array's, for any offset within
    * the buffer. */
  lemma {:induction false} ArrayOffsetConsistent(h: HeaderSer, c: Codec, staticLength: int, obj: Value, bs: seq<byte>, off: nat)
    requires OffsetConsistent(c) && off <= |bs|
    ensures ArrayUnpackFrom(h, c, staticLength, obj, bs, off) == ArrayUnpack(h, c, staticLength, obj, Drop(bs, off))
  {
    HeaderOffsetConsistent(h, bs, off);
    DecodedOffsetConsistent(h, c, staticLength, obj, bs, off, DecodeHeader(h, staticLength, HeaderUnpack(h, Drop(bs, off))));
  }

  lemma {:induction false} DecodedOffsetConsistent(h: HeaderSer, c: Codec, staticLength: int, obj: Value, bs: seq<byte>, off: nat,
                                cd: Result<(int, int)>)
    requires OffsetConsistent(c)
    requires DecodeHeader(h, staticLength, HeaderUnpackFrom(h, bs, off)) == cd
    requires DecodeHeader(h, staticLength, HeaderUnpack(h, Drop(bs, off))) == cd
    ensures ArrayUnpackFrom(h, c, staticLength, obj, bs, off) == ArrayUnpack(h, c, staticLength, obj, Drop(bs, off))
  {
    if cd.Ok? {
      CheckedItemsOffsetConsistent(h, c, obj, bs, off, cd.value.1, Turns(cd.value.0));
    }
  }

  lemma {:induction false} CheckedItemsOffsetConsistent(h: HeaderSer, c: Codec, obj: Value, bs: seq<byte>, off: nat, dataSize: int, n: nat)
    requires OffsetConsistent(c)
    ensures CheckedList(h, dataSize, UnpackItemsFrom(c, obj, bs, off + HeaderSize(h), n))
         == CheckedList(h, dataSize, UnpackItems(c, obj, Drop(bs, off), HeaderSize(h), n))
  {
    UnpackItemsFromConsistent(c, obj, bs, off, HeaderSize(h), n);
  }

  // ---- the loops, step by step ----

  predicate ItemPackInv(c: Codec, obj: Value, items: seq<Value>, k: nat, out: seq<byte>, count: nat)
  {
    PackItems(c, obj, items, 0) == ThenPack(Ok(Packed(out, count)), PackItems(c, obj, items, k))
  }

  lemma {:induction false} ItemPackStep(c: Codec, obj: Value, items: seq<Value>, k: nat, out: seq<byte>, count: nat, packed: Result<Packed>)
    requires k < |items| && ItemPackInv(c, obj, items, k, out, count)
    requires packed == PackWith(c, obj, [items[k]]) && packed.Ok?
    ensures ItemPackInv(c, obj, items, k + 1, out + packed.value.data, count + packed.value.size)
  {
    ThenPackShift(PackItems(c, obj, items, 0), Packed(out, count), PackItems(c, obj, items, k), packed,
      PackItems(c, obj, items, k + 1), Packed(out + packed.value.data, count + packed.value.size));
  }

  lemma {:induction false} ItemPackErr(c: Codec, obj: Value, items: seq<Value>, k: nat, out: seq<byte>, count: nat, packed: Result<Packed>)
    requires k < |items| && ItemPackInv(c, obj, items, k, out, count)
    requires packed == PackWith(c, obj, [items[k]]) && packed.Err?
    ensures PackItems(c, obj, items, 0) == Err(packed.error)
  {
  }

  predicate ItemUnpackInv(c: Codec, obj: Value, bs: seq<byte>, start: nat, n: nat, j: nat, values: seq<Value>, size: nat)
  {
    start <= size && j <= n
    && UnpackItems(c, obj, bs, start, n) == ThenUnpack(Ok(Unpacked(values, size - start)), UnpackItems(c, obj, bs, size, n - j))
  }

  lemma {:induction false} ItemUnpackStep(c: Codec, obj: Value, bs: seq<byte>, start: nat, n: nat, j: nat, values: seq<Value>, size: nat,
                       unpacked: Result<Unpacked>)
    requires j < n && ItemUnpackInv(c, obj, bs, start, n, j, values, size)
    requires unpacked == UnpackWith(c, obj, Drop(bs, size)) && unpacked.Ok?
    ensures ItemUnpackInv(c, obj, bs, start, n, j + 1, values + unpacked.value.values, size + unpacked.value.size)
  {
    ThenUnpackShift(UnpackItems(c, obj, bs, start, n), Unpacked(values, size - start), UnpackItems(c, obj, bs, size, n - j),
      unpacked, UnpackItems(c, obj, bs, size + unpacked.value.size, n - (j + 1)),
      Unpacked(values + unpacked.value.values, size + unpacked.value.size - start));
  }

  lemma {:induction false} ItemUnpackErr(c: Codec, obj: Value, bs: seq<byte>, start: nat, n: nat, j: nat, values: seq<Value>, size: nat,
                      unpacked: Result<Unpacked>)
    requires j < n && ItemUnpackInv(c, obj, bs, start, n, j, values, size)
    requires unpacked == UnpackWith(c, obj, Drop(bs, size)) && unpacked.Err?
    ensures UnpackItems(c, obj, bs, start, n) == Err(unpacked.error)
  {
  }

  predicate ItemUnpackFromInv(c: Codec, obj: Value, bs: seq<byte>, off: nat, start: nat, n: nat, j: nat,
                              values: seq<Value>, size: nat)
  {
    start <= size && j <= n
    && UnpackItemsFrom(c, obj, bs, off + start, n)
       == ThenUnpack(Ok(Unpacked(values, size - start)), UnpackItemsFrom(c, obj, bs, off + size, n - j))
  }

  lemma {:induction false} ItemUnpackFromStep(c: Codec, obj: Value, bs: seq<byte>, off: nat, start: nat, n: nat, j: nat,
                           values: seq<Value>, size: nat, unpacked: Result<Unpacked>)
    requires j < n && ItemUnpackFromInv(c, obj, bs, off, start, n, j, values, size)
    requires unpacked == UnpackFromWith(c, obj, bs, off + size) && unpacked.Ok?
    ensures ItemUnpackFromInv(c, obj, bs, off, start, n, j + 1, values + unpacked.value.values, size + unpacked.value.size)
  {
    assert off + size + unpacked.value.size == off + (size + unpacked.value.size);
    ThenUnpackShift(UnpackItemsFrom(c, obj, bs, off + start, n), Unpacked(values, size - start),
      UnpackItemsFrom(c, obj, bs, off + size, n - j), unpacked,
      UnpackItemsFrom(c, obj, bs, off + size + unpacked.value.size, n - (j + 1)),
      Unpacked(values + unpacked.value.values, size + unpacked.value.size - start));
  }

  lemma {:induction false} ItemUnpackFromErr(c: Codec, obj: Value, bs: seq<byte>, off: nat, start: nat, n: nat, j: nat,
                          values: seq<Value>, size: nat, unpacked: Result<Unpacked>)
    requires j < n && ItemUnpackFromInv(c, obj, bs, off, start, n, j, values, size)
    requires unpacked == UnpackFromWith(c, obj, bs, off + size) && unpacked.Err?
    ensures UnpackItemsFrom(c, obj, bs, off + start, n) == Err(unpacked.error)
  {
  }

  /** `ArraySerializer`: `prepack`/`preunpack` store the partial object,
    * which the item serializer is then prepacked with; `size` is written
    * only once a call has succeeded. */
  class ArraySerializer {
    const header: HeaderSer
    const item: Codec
    const staticLength: int
    const numValues: nat
    var size: nat
    var partialObject: Option<Value>

    constructor (headerSerializer: HeaderSer, itemSerializer: Codec, staticLen: int)
      ensures header == headerSerializer && item == itemSerializer && staticLength == staticLen
      ensures numValues == 1 && size == 0 && partialObject == None
    {
      header := headerSerializer;
      item := itemSerializer;
      staticLength := staticLen;
      numValues := 1;
      size := 0;
      partialObject := None;
    }

    method Prepack(obj: Value)
      modifies this
      ensures partialObject == Some(obj) && size == old(size)
    {
      partialObject := Some(obj);
    }

    method Preunpack(obj: Value)
      modifies this
      ensures partialObject == Some(obj) && size == old(size)
    {
      partialObject := Some(obj);
    }

    /** `pack`; before any `prepack` there is no `_partial_object` to read. */
    method Pack(values: seq<Value>) returns (r: Result<seq<byte>>)
      modifies this
      ensures partialObject == old(partialObject)
      ensures partialObject.None? ==> r == Err(AttributeError) && size == old(size)
      ensures partialObject.Some? ==> var spec := ArrayPack(header, item, staticLength, partialObject.value, values);
        (spec.Err? ==> r == Err(spec.error) && size == old(size))
        && (spec.Ok? ==> r == Ok(spec.value.data) && size == spec.value.size)
    {
      if partialObject.None? {
        return Err(AttributeError);
      }
      var obj := partialObject.value;
      var headerSize := HeaderSize(header);
      var total: nat := headerSize;
      if |values| == 0 {
        return Err(IndexError);
      }
      var elements := Elements(values[0]);
      if elements.Err? {
        return Err(elements.error);
      }
      var items := elements.value;
      var out: seq<byte> := [];
      var k: nat := 0;
      ThenPackUnit(PackItems(item, obj, items, 0));
      while k < |items|
        invariant 0 <= k <= |items| && headerSize <= total
        invariant ItemPackInv(item, obj, items, k, out, total - headerSize)
        invariant size == old(size) && partialObject == old(partialObject)
      {
        var packed := PackWith(item, obj, [items[k]]);
        if packed.Err? {
          ItemPackErr(item, obj, items, k, out, total - headerSize, packed);
          return Err(packed.error);
        }
        ItemPackStep(item, obj, items, k, out, total - headerSize, packed);
        out := out + packed.value.data;
        total := total + packed.value.size;
        k := k + 1;
      }
      ThenPackUnitRight(Ok(Packed(out, total - headerSize)));
      var headerValues := HeaderPackValues(header, staticLength, |items|, total - headerSize);
      if headerValues.Err? {
        return Err(headerValues.error);
      }
      var headerData := HeaderPack(header, headerValues.value);
      if headerData.Err? {
        return Err(headerData.error);
      }
      size := total;
      return Ok(headerData.value.data + out);
    }

    method Unpack(buffer: seq<byte>) returns (r: Result<seq<Value>>)
      modifies this
      ensures partialObject == old(partialObject)
      ensures partialObject.None? ==> r.Err? && size == old(size)
      ensures partialObject.Some? ==> var spec := ArrayUnpack(header, item, staticLength, partialObject.value, buffer);
        (spec.Err? ==> r == Err(spec.error) && size == old(size))
        && (spec.Ok? ==> r == Ok(spec.value.values) && size == spec.value.size)
    {
      var decoded := DecodeHeader(header, staticLength, HeaderUnpack(header, buffer));
      if decoded.Err? {
        return Err(decoded.error);
      }
      var (count, dataSize) := decoded.value;
      var headerSize := HeaderSize(header);
      var total: nat := headerSize;
      if partialObject.None? {
        return Err(AttributeError);
      }
      var obj := partialObject.value;
      var items: seq<Value> := [];
      var n := Turns(count);
      var j: nat := 0;
      ThenUnpackUnit(UnpackItems(item, obj, buffer, headerSize, n));
      while j < n
        invariant ItemUnpackInv(item, obj, buffer, headerSize, n, j, items, total)
        invariant size == old(size) && partialObject == old(partialObject)
      {
        var unpacked := UnpackWith(item, obj, Drop(buffer, total));
        if unpacked.Err? {
          ItemUnpackErr(item, obj, buffer, headerSize, n, j, items, total, unpacked);
          return Err(unpacked.error);
        }
        ItemUnpackStep(item, obj, buffer, headerSize, n, j, items, total, unpacked);
        items := items + unpacked.value.values;
        total := total + unpacked.value.size;
        j := j + 1;
      }
      ThenUnpackUnitRight(Ok(Unpacked(items, total - headerSize)));
      if !DataSizeMatches(dataSize, total - headerSize) {
        return Err(ValueError);
      }
      size := total;
      return Ok([List(items)]);
    }

    method UnpackFrom(buffer: seq<byte>, offset: nat) returns (r: Result<seq<Value>>)
      modifies this
      ensures partialObject == old(partialObject)
      ensures partialObject.None? ==> r.Err? && size == old(size)
      ensures partialObject.Some? ==> var spec := ArrayUnpackFrom(header, item, staticLength, partialObject.value, buffer, offset);
        (spec.Err? ==> r == Err(spec.error) && size == old(size))
        && (spec.Ok? ==> r == Ok(spec.value.values) && size == spec.value.size)
    {
      var decoded := DecodeHeader(header, staticLength, HeaderUnpackFrom(header, buffer, offset));
      if decoded.Err? {
        return Err(decoded.error);
      }
      var (count, dataSize) := decoded.value;
      var headerSize := HeaderSize(header);
      var total: nat := headerSize;
      if partialObject.None? {
        return Err(AttributeError);
      }
      var obj := partialObject.value;
      var items: seq<Value> := [];
      var n := Turns(count);
      var j: nat := 0;
      ThenUnpackUnit(UnpackItemsFrom(item, obj, buffer, offset + headerSize, n));
      while j < n
        invariant ItemUnpackFromInv(item, obj, buffer, offset, headerSize, n, j, items, total)
        invariant size == old(size) && partialObject == old(partialObject)
      {
        var unpacked := UnpackFromWith(item, obj, buffer, offset + total);
        if unpacked.Err? {
          ItemUnpackFromErr(item, obj, buffer, offset, headerSize, n, j, items, total, unpacked);
          return Err(unpacked.error);
        }
        ItemUnpackFromStep(item, obj, buffer, offset, headerSize, n, j, items, total, unpacked);
        items := items + unpacked.value.values;
        total := total + unpacked.value.size;
        j := j + 1;
      }
      ThenUnpackUnitRight(Ok(Unpacked(items, total - headerSize)));
      if !DataSizeMatches(dataSize, total - headerSize) {
        return Err(ValueError);
      }
      size := total;
      return Ok([List(items)]);
    }
  }
}
