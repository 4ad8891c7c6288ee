/** The format-string algebra of structured/serializers/structs.py:
  * folding, byte-order splitting, `+`, `*`, `@`, equality, and the action
  * bookkeeping of `StructActionSerializer`. */
module Structs {
  import opened Outcomes
  import opened Values
  import opened ByteOrders
  import opened PyStruct
  import opened Codecs

  // ---- fold_overlaps ----

  /** The two formats end and start with the same character, and that
    * character may be merged (`s`/`p` only when strings are combined). */
  predicate Overlaps(f1: Format, f2: Format, combineStrings: bool)
  {
    |f1| > 0 && |f2| > 0 && f1[|f1| - 1].spec == f2[0].spec
    && (combineStrings || !IsStringChar(f1[|f1| - 1].spec))
  }

  /** The merged item: the two counts added, an unwritten count read as 1. */
  function Merged(last: Item, first: Item): Item
  {
    Item(Some(Count(last) + Count(first)), last.spec)
  }

  /** `fold_overlaps` as written (structs.py:62-80).  The start pattern ends
    * in a lazy `(.*?)` that always matches the empty string, so the epilogue
    * is empty and everything after the first item of `f2` is lost. */
  function FoldOverlapsAsWritten(f1: Format, f2: Format, combineStrings: bool): (r: Format)
    ensures !Overlaps(f1, f2, combineStrings) ==> r == f1 + f2
    ensures Overlaps(f1, f2, combineStrings) ==>
      r == f1[..|f1| - 1] + [Merged(f1[|f1| - 1], f2[0])]
  {
    if Overlaps(f1, f2, combineStrings) then f1[..|f1| - 1] + [Merged(f1[|f1| - 1], f2[0])]
    else f1 + f2
  }

  /** `fold_overlaps` as its documentation describes it: the rest of `f2`
    * follows the merged item.  This is the fold the rest of the model uses. */
  function FoldOverlaps(f1: Format, f2: Format, combineStrings: bool): (r: Format)
    ensures !Overlaps(f1, f2, combineStrings) ==> r == f1 + f2
    ensures Overlaps(f1, f2, combineStrings) ==>
      |r| == |f1| + |f2| - 1 && r[|f1| - 1] == Merged(f1[|f1| - 1], f2[0])
      && r[..|f1| - 1] == f1[..|f1| - 1] && r[|f1|..] == f2[1..]
  {
    if Overlaps(f1, f2, combineStrings)
    then f1[..|f1| - 1] + [Merged(f1[|f1| - 1], f2[0])] + f2[1..]
    else f1 + f2
  }

  lemma {:induction false} ExpandSingle(it: Item)
    ensures Expand([it]) == ExpandItem(it)
  {
    assert [it][1..] == [];
  }

  /** The fields of `p + [x] + q` are those of `p`, then `x`'s, then `q`'s. */
  lemma {:induction false} ExpandAround(p: Format, x: Item, q: Format)
    ensures Expand(p + [x] + q) == Expand(p) + ExpandItem(x) + Expand(q)
  {
    ExpandAppend(p + [x], q);
    ExpandAppend(p, [x]);
    ExpandSingle(x);
  }

  /** A merged item stands for the fields of both items it replaces, unless
    * it is a string item. */
  lemma {:induction false} MergedFields(last: Item, first: Item)
    requires last.spec == first.spec && !IsStringChar(last.spec)
    ensures ExpandItem(Merged(last, first)) == ExpandItem(last) + ExpandItem(first)
  {
    RepeatSplit(UnitOf(last.spec), Count(last), Count(first));
  }

  lemma {:induction false} ItemSizes(last: Item, first: Item)
    requires last.spec == first.spec
    ensures UnitsSize(ExpandItem(Merged(last, first))) == UnitsSize(ExpandItem(last)) + UnitsSize(ExpandItem(first))
  {
    if IsStringChar(last.spec) {
      assert [Str(Count(last))][1..] == [];
      assert [Pascal(Count(last))][1..] == [];
      assert [Str(Count(first))][1..] == [];
      assert [Pascal(Count(first))][1..] == [];
      assert [Str(Count(last) + Count(first))][1..] == [];
      assert [Pascal(Count(last) + Count(first))][1..] == [];
    } else {
      MergedFields(last, first);
      UnitsSizeAppend(ExpandItem(last), ExpandItem(first));
    }
  }

  /** Folding never changes the position or width of any byte. */
  lemma {:induction false} FoldOverlapsCalcSize(f1: Format, f2: Format, combineStrings: bool)
    ensures CalcSize(FoldOverlaps(f1, f2, combineStrings)) == CalcSize(f1) + CalcSize(f2)
  {
    FormatAppend(f1, f2);
    if Overlaps(f1, f2, combineStrings) {
      var n := |f1| - 1;
      var p, last, first, q := f1[..n], f1[n], f2[0], f2[1..];
      var m := Merged(last, first);
      assert FoldOverlaps(f1, f2, combineStrings) == p + [m] + q;
      assert f1 == p + [last];
      assert f2 == [first] + q;
      calc {
        CalcSize(f1) + CalcSize(f2);
        { ExpandAppend(p, [last]); ExpandSingle(last); assert ([first] + q)[1..] == q; }
        UnitsSize(Expand(p) + ExpandItem(last)) + UnitsSize(ExpandItem(first) + Expand(q));
        { UnitsSizeAppend(Expand(p), ExpandItem(last));
          UnitsSizeAppend(ExpandItem(first), Expand(q)); ItemSizes(last, first); }
        UnitsSize(Expand(p)) + UnitsSize(ExpandItem(m)) + UnitsSize(Expand(q));
        { UnitsSizeAppend(Expand(p), ExpandItem(m));
          UnitsSizeAppend(Expand(p) + ExpandItem(m), Expand(q)); }
        UnitsSize(Expand(p) + ExpandItem(m) + Expand(q));
        { ExpandAround(p, m, q); }
        CalcSize(p + [m] + q);
      }
    }
  }

  lemma {:induction false} RepeatSplit<T>(x: T, a: nat, b: nat)
    ensures Repeat(x, a + b) == Repeat(x, a) + Repeat(x, b)
  {
    RepeatAt(x, a + b);
    RepeatAt(x, a);
    RepeatAt(x, b);
  }

  /** Without string combining, the folded format describes exactly the same
    * fields as the two formats one after the other, so it packs and unpacks
    * exactly like them. */
  lemma {:induction false} FoldOverlapsLayout(f1: Format, f2: Format)
    ensures Expand(FoldOverlaps(f1, f2, false)) == Expand(f1 + f2)
  {
    if Overlaps(f1, f2, false) {
      var n := |f1| - 1;
      var p, last, first, q := f1[..n], f1[n], f2[0], f2[1..];
      assert FoldOverlaps(f1, f2, false) == p + [Merged(last, first)] + q;
      assert f1 + f2 == p + [last] + ([first] + q) by {
        assert f1 == p + [last];
        assert f2 == [first] + q;
      }
      MergeLayout(p, last, first, q);
    } else {
      assert FoldOverlaps(f1, f2, false) == f1 + f2;
    }
  }

  /** Replacing two neighbouring items of one non-string code by their
    * merged item keeps the fields. */
  lemma {:induction false} MergeLayout(p: Format, last: Item, first: Item, q: Format)
    requires last.spec == first.spec && !IsStringChar(last.spec)
    ensures Expand(p + [last] + ([first] + q)) == Expand(p + [Merged(last, first)] + q)
  {
    var m := Merged(last, first);
    calc {
      Expand(p + [last] + ([first] + q));
      { ExpandAppend(p + [last], [first] + q); ExpandAppend(p, [last]); }
      Expand(p) + Expand([last]) + Expand([first] + q);
      { ExpandSingle(last); assert ([first] + q)[1..] == q; }
      Expand(p) + ExpandItem(last) + (ExpandItem(first) + Expand(q));
      { MergedFields(last, first); }
      Expand(p) + ExpandItem(m) + Expand(q);
      { ExpandAround(p, m, q); }
      Expand(p + [m] + q);
    }
  }

  /** Hence the number of values is preserved as well. */
  lemma {:induction false} FoldOverlapsNumValues(f1: Format, f2: Format)
    ensures NumValues(FoldOverlaps(f1, f2, false)) == NumValues(f1) + NumValues(f2)
  {
    FoldOverlapsLayout(f1, f2);
    FormatAppend(f1, f2);
  }

  /** 'b' + 'bh' folds to '2b' as written: the 'h' is dropped and one value is
    * lost, while the corrected fold gives '2bh'. */
  lemma {:induction false} FoldOverlapsDropsTail()
    ensures FoldOverlapsAsWritten([Item(None, 'b')], [Item(None, 'b'), Item(None, 'h')], false)
      == [Item(Some(2), 'b')]
    ensures FoldOverlaps([Item(None, 'b')], [Item(None, 'b'), Item(None, 'h')], false)
      == [Item(Some(2), 'b'), Item(None, 'h')]
    ensures NumValues([Item(Some(2), 'b')]) == 2
    ensures NumValues([Item(None, 'b')]) + NumValues([Item(None, 'b'), Item(None, 'h')]) == 3
  {
    assert Expand([Item(Some(2), 'b')]) == [Signed(1), Signed(1)];
    assert Expand([Item(None, 'b'), Item(None, 'h')]) == [Signed(1), Signed(2)] by {
      assert [Item(None, 'b'), Item(None, 'h')][1..] == [Item(None, 'h')];
    }
  }

  /** The two folds agree whenever `f2` has at most one item, which is every
    * pairing the engine's own tests exercise ('4sI' + 'I' gives '4s2I'). */
  lemma {:induction false} FoldOverlapsAgreeOnSingleItem(f1: Format, f2: Format, combineStrings: bool)
    requires |f2| <= 1
    ensures FoldOverlapsAsWritten(f1, f2, combineStrings) == FoldOverlaps(f1, f2, combineStrings)
  {
  }

  // ---- split_byte_order ----

  /** The format string `bo.value + f`, with a marker as an item of its own. */
  function WithMarker(bo: ByteOrder, f: Format): Format
  {
    if bo == Default then f else [Item(None, Marker(bo)[0])] + f
  }

  /** `split_byte_order` (structs.py:83-89): a leading byte-order character is
    * split off, anything else leaves the format alone with `DEFAULT`. */
  function SplitByteOrder(f: Format): (r: (ByteOrder, Format))
    ensures r.0 != Default ==> f == WithMarker(r.0, r.1)
    ensures r.0 == Default ==> r.1 == f
  {
    if |f| > 0 && f[0].count.None? && FromChar(f[0].spec).Ok?
    then (FromChar(f[0].spec).value, f[1..])
    else (Default, f)
  }

  /** Splitting undoes adding the marker, for every byte order. */
  lemma {:induction false} SplitWithMarker(bo: ByteOrder, f: Format)
    requires ValidFormat(f)
    ensures SplitByteOrder(WithMarker(bo, f)) == (bo, f)
  {
    if bo == Default && |f| > 0 {
      assert IsStructChar(f[0].spec);
    }
  }

  // ---- StructSerializer ----

  /** A `StructSerializer`: the format after the byte-order marker, and the
    * byte order. */
  datatype StructSer = StructSer(fmt: Format, byteOrder: ByteOrder)

  /** `format`, the string given to `struct.Struct`. */
  function FullFormat(s: StructSer): Format { WithMarker(s.byteOrder, s.fmt) }

  function StructNumValues(s: StructSer): nat { NumValues(s.fmt) }

  function StructSize(s: StructSer): nat { CalcSize(s.fmt) }

  /** `StructSerializer.__add__` with another struct (structs.py:156-170). */
  function StructAdd(a: StructSer, b: StructSer): (r: Result<StructSer>)
    ensures r.Err? <==> a.byteOrder != b.byteOrder
    ensures r.Err? ==> r.error == ValueError
    ensures r.Ok? ==> (r.value.byteOrder == a.byteOrder
      && Expand(r.value.fmt) == Expand(a.fmt + b.fmt))
  {
    FoldOverlapsLayout(a.fmt, b.fmt);
    if a.byteOrder != b.byteOrder then Err(ValueError)
    else Ok(StructSer(FoldOverlaps(a.fmt, b.fmt, false), a.byteOrder))
  }

  /** The right operand of `*` or `@`: an int or anything else. */
  datatype Factor = IntFactor(n: int) | NotInt

  /** `reduce(fold_overlaps, repeat(fmt, n))`. */
  function Repeated(f: Format, n: nat, combineStrings: bool): Format
    requires n >= 1
  {
    if n == 1 then f else FoldOverlaps(Repeated(f, n - 1, combineStrings), f, combineStrings)
  }

  /** `n` copies of a sequence, end to end. */
  function Times<T>(s: seq<T>, n: nat): (r: seq<T>)
    ensures |r| == |s| * n
  {
    if n == 0 then [] else Times(s, n - 1) + s
  }

  /** `_mul_impl` (structs.py:187-198): `*` passes `combineStrings = false`,
    * `@` passes true. */
  function MulImpl(s: StructSer, k: Factor, combineStrings: bool): (r: Result<StructSer>)
    ensures k.NotInt? ==> r == Err(TypeError)
    ensures k.IntFactor? && k.n <= 0 ==> r == Err(ValueError)
    ensures k.IntFactor? && k.n == 1 ==> r == Ok(s)
    ensures r.Ok? ==> r.value.byteOrder == s.byteOrder
  {
    match k
    case NotInt => Err(TypeError)
    case IntFactor(n) =>
      if n <= 0 then Err(ValueError)
      else if n == 1 then Ok(s)
      else Ok(StructSer(Repeated(s.fmt, n, combineStrings), s.byteOrder))
  }

  lemma {:induction false} RepeatedLayout(f: Format, n: nat)
    requires n >= 1
    ensures Expand(Repeated(f, n, false)) == Times(Expand(f), n)
  {
    if n == 1 {
      assert Times(Expand(f), 1) == Times(Expand(f), 0) + Expand(f);
    } else {
      RepeatedLayout(f, n - 1);
      FoldOverlapsLayout(Repeated(f, n - 1, false), f);
      ExpandAppend(Repeated(f, n - 1, false), f);
    }
  }

  lemma {:induction false} TimesValues(us: seq<Unit>, n: nat)
    ensures UnitsValues(Times(us, n)) == UnitsValues(us) * n
    ensures UnitsSize(Times(us, n)) == UnitsSize(us) * n
  {
    if n > 0 {
      TimesValues(us, n - 1);
      UnitsSizeAppend(Times(us, n - 1), us);
      var v, z := UnitsValues(us), UnitsSize(us);
      assert v * n == v * (n - 1) + v && z * n == z * (n - 1) + z;
    }
  }

  /** The fields of `s * n` are `n` copies of the fields of `s`. */
  lemma {:induction false} MulExpand(s: StructSer, n: int)
    requires n >= 1
    ensures MulImpl(s, IntFactor(n), false).Ok?
    ensures Expand(MulImpl(s, IntFactor(n), false).value.fmt) == Times(Expand(s.fmt), n)
  {
    if n == 1 {
      assert Times(Expand(s.fmt), 1) == Times(Expand(s.fmt), 0) + Expand(s.fmt);
    } else {
      RepeatedLayout(s.fmt, n);
    }
  }

  /** `s * n` lays out `n` copies of `s`'s fields back to back, so it packs
    * `n` times as many values into `n` times as many bytes. */
  lemma {:induction false} MulLayout(s: StructSer, n: int)
    requires n >= 1
    ensures MulImpl(s, IntFactor(n), false).Ok?
    ensures Expand(MulImpl(s, IntFactor(n), false).value.fmt) == Times(Expand(s.fmt), n)
    ensures StructNumValues(MulImpl(s, IntFactor(n), false).value) == StructNumValues(s) * n
    ensures StructSize(MulImpl(s, IntFactor(n), false).value) == StructSize(s) * n
  {
    MulExpand(s, n);
    TimesValues(Expand(s.fmt), n);
  }

  /** `reduce(fold_overlaps, repeat(fmt, n))` with the fold as written. */
  function RepeatedAsWritten(f: Format, n: nat, combineStrings: bool): Format
    requires n >= 1
  {
    if n == 1 then f else FoldOverlapsAsWritten(RepeatedAsWritten(f, n - 1, combineStrings), f, combineStrings)
  }

  /** As written, `'bhb' * 2` is `'bh2b'`: the second copy's `h` and `b`
    * are lost, four values instead of the six of two copies. */
  lemma {:induction false} MulDropsAsWritten()
    ensures var bhb := [Item(None, 'b'), Item(None, 'h'), Item(None, 'b')];
      RepeatedAsWritten(bhb, 2, false) == [Item(None, 'b'), Item(None, 'h'), Item(Some(2), 'b')]
      && NumValues(RepeatedAsWritten(bhb, 2, false)) == 4
      && NumValues(Repeated(bhb, 2, false)) == 2 * NumValues(bhb) == 6
  {
    var b, h := Item(None, 'b'), Item(None, 'h');
    var bhb := [b, h, b];
    var w := [b, h, Item(Some(2), 'b')];
    assert RepeatedAsWritten(bhb, 2, false) == w;
    BhbValues();
    MulLayout(StructSer(bhb, Default), 2);
    assert MulImpl(StructSer(bhb, Default), IntFactor(2), false).value.fmt == Repeated(bhb, 2, false);
  }

  lemma {:induction false} BhbValues()
    ensures NumValues([Item(None, 'b'), Item(None, 'h'), Item(None, 'b')]) == 3
    ensures NumValues([Item(None, 'b'), Item(None, 'h'), Item(Some(2), 'b')]) == 4
  {
    var b, h := Item(None, 'b'), Item(None, 'h');
    var bhb := [b, h, b];
    var w := [b, h, Item(Some(2), 'b')];
    assert Repeat(Signed(1), 1) == [Signed(1)];
    assert Repeat(Signed(2), 1) == [Signed(2)];
    assert Repeat(Signed(1), 2) == [Signed(1), Signed(1)];
    assert ExpandItem(b) == [Signed(1)] && ExpandItem(h) == [Signed(2)];
    assert ExpandItem(w[2]) == [Signed(1), Signed(1)];
    assert w[1..][1..][1..] == [] && bhb[1..][1..][1..] == [];
    assert Expand(w[1..][1..]) == [Signed(1), Signed(1)] + Expand([]);
    assert Expand(w[1..]) == [Signed(2)] + Expand(w[1..][1..]);
    assert Expand(w) == [Signed(1)] + Expand(w[1..]);
    assert Expand(w) == [Signed(1), Signed(2), Signed(1), Signed(1)];
    assert Expand(bhb[1..][1..]) == [Signed(1)] + Expand([]);
    assert Expand(bhb[1..]) == [Signed(2)] + Expand(bhb[1..][1..]);
    assert Expand(bhb) == [Signed(1)] + Expand(bhb[1..]);
    assert Expand(bhb) == [Signed(1), Signed(2), Signed(1)];
    FourValues([Signed(1), Signed(2), Signed(1), Signed(1)]);
    FourValues([Signed(1), Signed(2), Signed(1)] + [PadByte]);
    UnitsSizeAppend([Signed(1), Signed(2), Signed(1)], [PadByte]);
    assert UnitsValues([PadByte]) == 0 by { assert [PadByte][1..] == []; }
  }

  /** Counts the values of four units one by one. */
  lemma {:induction false} FourValues(us: seq<Unit>)
    requires |us| == 4
    ensures UnitsValues(us) == (if HasValue(us[0]) then 1 else 0) + (if HasValue(us[1]) then 1 else 0)
      + (if HasValue(us[2]) then 1 else 0) + (if HasValue(us[3]) then 1 else 0)
  {
    var u1, u2, u3 := us[1..], us[1..][1..], us[1..][1..][1..];
    assert u1[0] == us[1] && u2[0] == us[2] && u3[0] == us[3] && u3[1..] == [];
    assert UnitsValues(u3) == (if HasValue(us[3]) then 1 else 0);
    assert UnitsValues(u2) == (if HasValue(us[2]) then 1 else 0) + UnitsValues(u3);
    assert UnitsValues(u1) == (if HasValue(us[1]) then 1 else 0) + UnitsValues(u2);
  }

  /** `'{c}s' @ n` is the single string field `'{c*n}s'`. */
  lemma {:induction false} StringMatmul(c: Option<nat>, n: nat)
    requires n >= 2
    ensures Repeated([Item(c, 's')], n, true) == [Item(Some(Count(Item(c, 's')) * n), 's')]
  {
    var it := Item(c, 's');
    if n > 2 {
      StringMatmul(c, n - 1);
      assert Count(it) * (n - 1) + Count(it) == Count(it) * n;
    }
  }

  /** `'{c}s' * n` is `n` separate string fields. */
  lemma {:induction false} StringMul(c: Option<nat>, n: nat)
    requires n >= 1
    ensures Repeated([Item(c, 's')], n, false) == Repeat(Item(c, 's'), n)
  {
    var it := Item(c, 's');
    if n > 1 {
      StringMul(c, n - 1);
      RepeatAt(it, n - 1);
      RepeatAt(it, n);
      assert Repeat(it, n - 1) + [it] == Repeat(it, n);
    }
  }

  /** `with_byte_order` (structs.py:120-125): the same serializer when the
    * order is unchanged, otherwise the same fields in the new order. */
  function StructWithByteOrder(s: StructSer, bo: ByteOrder): (r: StructSer)
    ensures r.fmt == s.fmt && r.byteOrder == bo
    ensures s.byteOrder == bo ==> r == s
  {
    if s.byteOrder == bo then s else StructSer(s.fmt, bo)
  }

  /** `StructSerializer.__eq__` (structs.py:200-204): same `format` string and
    * same `num_values`. */
  predicate StructEq(a: StructSer, b: StructSer)
  {
    FullFormat(a) == FullFormat(b) && StructNumValues(a) == StructNumValues(b)
  }

  /** For valid formats, equality is equality of byte order and fields as
    * written. */
  lemma {:induction false} StructEqIff(a: StructSer, b: StructSer)
    requires ValidFormat(a.fmt) && ValidFormat(b.fmt)
    ensures StructEq(a, b) <==> a == b
  {
    if StructEq(a, b) {
      SplitWithMarker(a.byteOrder, a.fmt);
      SplitWithMarker(b.byteOrder, b.fmt);
    }
  }

  // ---- packing ----

  /** `StructSerializer.pack`. */
  function StructPack(s: StructSer, vs: seq<Value>): (r: Result<Packed>)
    ensures r.Ok? ==> r.value.size == StructSize(s) && |r.value.data| == StructSize(s)
  {
    var p := PyStruct.Pack(s.byteOrder, s.fmt, vs);
    if p.Err? then Err(p.error) else Ok(Packed(p.value, StructSize(s)))
  }

  /** `StructSerializer.unpack` (structs.py:127-128): the buffer is first cut
    * to `size`, so only a short buffer is an error. */
  function StructUnpack(s: StructSer, bs: seq<byte>): (r: Result<Unpacked>)
    ensures r.Ok? <==> |bs| >= StructSize(s)
    ensures r.Ok? ==> r.value.size == StructSize(s) && |r.value.values| == StructNumValues(s)
  {
    // `buffer[:size]`: the whole buffer when it is shorter than `size`
    var u := PyStruct.Unpack(s.byteOrder, s.fmt, if |bs| >= StructSize(s) then bs[..StructSize(s)] else bs);
    if u.Err? then Err(u.error) else Ok(Unpacked(u.value, StructSize(s)))
  }

  function StructUnpackFrom(s: StructSer, bs: seq<byte>, off: nat): (r: Result<Unpacked>)
    ensures r.Ok? <==> off + StructSize(s) <= |bs|
    ensures r.Ok? ==> r == StructUnpack(s, bs[off..])
  {
    var u := PyStruct.UnpackFrom(s.byteOrder, s.fmt, bs, off);
    assert u.Ok? ==> bs[off..][..StructSize(s)] == bs[off..off + StructSize(s)];
    if u.Err? then Err(u.error) else Ok(Unpacked(u.value, StructSize(s)))
  }

  function StructCodec(s: StructSer): Codec
  {
    Codec(StructNumValues(s),
      (obj: Value, vs: seq<Value>) => StructPack(s, vs),
      (obj: Value, bs: seq<byte>) => StructUnpack(s, bs),
      (obj: Value, bs: seq<byte>, off: nat) => StructUnpackFrom(s, bs, off))
  }

  /** A struct serializer round-trips its canonical values. */
  lemma {:induction false} StructRoundTrip(s: StructSer, vs: seq<Value>)
    requires CanonicalValues(Expand(s.fmt), vs)
    ensures StructPack(s, vs).Ok?
    ensures StructUnpack(s, StructPack(s, vs).value.data) == Ok(Unpacked(vs, StructSize(s)))
  {
    PackUnpackRoundTrip(s.byteOrder, s.fmt, vs);
    var data := StructPack(s, vs).value.data;
    assert data[..StructSize(s)] == data;
  }

  /** What follows the packed bytes does not change what is read back. */
  lemma {:induction false} StructRoundTripRest(s: StructSer, vs: seq<Value>, rest: seq<byte>)
    requires CanonicalValues(Expand(s.fmt), vs)
    ensures StructPack(s, vs).Ok?
    ensures StructUnpack(s, StructPack(s, vs).value.data + rest) == Ok(Unpacked(vs, StructSize(s)))
  {
    StructRoundTrip(s, vs);
    var data := StructPack(s, vs).value.data;
    assert (data + rest)[..StructSize(s)] == data;
    assert data[..StructSize(s)] == data;
  }

  // ---- StructActionSerializer ----

  /** An unpack action is named by an id; `Noop` is `noop_action`. */
  type ActionId = nat
  const Noop: ActionId := 0

  /** What each non-noop action does to a value. */
  type ActionTable = (ActionId, Value) -> Value

  function Apply(t: ActionTable, a: ActionId, v: Value): Value
  {
    if a == Noop then v else t(a, v)
  }

  /** A `StructActionSerializer`: a struct plus one action per value. */
  datatype ActionSer = ActionSer(st: StructSer, actions: seq<ActionId>)

  /** The constructor (structs.py:225-236): `actions` padded with `noop_action`
    * up to `num_values`; a longer tuple is kept as it is. */
  function MakeAction(bo: ByteOrder, fmt: Format, actions: seq<ActionId>): (r: ActionSer)
    ensures r.st == StructSer(fmt, bo)
    ensures |r.actions| == if |actions| < NumValues(fmt) then NumValues(fmt) else |actions|
    ensures r.actions[..|actions|] == actions
    ensures forall i :: |actions| <= i < |r.actions| ==> r.actions[i] == Noop
  {
    var nv := NumValues(fmt);
    if |actions| < nv then
      RepeatAt(Noop, nv - |actions|);
      ActionSer(StructSer(fmt, bo), actions + Repeat(Noop, nv - |actions|))
    else ActionSer(StructSer(fmt, bo), actions)
  }

  /** One action per value: what every constructor call leaves when given at
    * most `num_values` actions. */
  predicate ActionWellFormed(a: ActionSer)
  {
    |a.actions| == StructNumValues(a.st)
  }

  /** `zip(actions, values)` with each action applied. */
  function ApplyActions(t: ActionTable, actions: seq<ActionId>, vs: seq<Value>): (r: seq<Value>)
    ensures |r| == if |actions| < |vs| then |actions| else |vs|
    ensures forall i :: 0 <= i < |r| ==> r[i] == Apply(t, actions[i], vs[i])
  {
    if actions == [] || vs == [] then []
    else [Apply(t, actions[0], vs[0])] + ApplyActions(t, actions[1..], vs[1..])
  }

  function ActionUnpack(t: ActionTable, a: ActionSer, bs: seq<byte>): (r: Result<Unpacked>)
    ensures r.Ok? <==> StructUnpack(a.st, bs).Ok?
    ensures ActionWellFormed(a) && r.Ok? ==>
      |r.value.values| == |a.actions|
      && forall i :: 0 <= i < |a.actions| ==>
         r.value.values[i] == Apply(t, a.actions[i], StructUnpack(a.st, bs).value.values[i])
  {
    var u := StructUnpack(a.st, bs);
    if u.Err? then u else Ok(Unpacked(ApplyActions(t, a.actions, u.value.values), u.value.size))
  }

  function ActionUnpackFrom(t: ActionTable, a: ActionSer, bs: seq<byte>, off: nat): (r: Result<Unpacked>)
    ensures r.Ok? <==> off + StructSize(a.st) <= |bs|
    ensures r.Ok? ==> r == ActionUnpack(t, a, bs[off..])
  {
    var u := StructUnpackFrom(a.st, bs, off);
    if u.Err? then u else Ok(Unpacked(ApplyActions(t, a.actions, u.value.values), u.value.size))
  }

  function ActionCodec(t: ActionTable, a: ActionSer): Codec
  {
    Codec(StructNumValues(a.st),
      (obj: Value, vs: seq<Value>) => StructPack(a.st, vs),
      (obj: Value, bs: seq<byte>) => ActionUnpack(t, a, bs),
      (obj: Value, bs: seq<byte>, off: nat) => ActionUnpackFrom(t, a, bs, off))
  }

  /** `StructActionSerializer.__add__` (structs.py:273-284) with a plain
    * struct (`otherActions` empty) or another action serializer, keeping the
    * code's byte-order handling: the left byte order is used for both halves
    * without any check.  The formats are joined with the corrected
    * `FoldOverlaps`; the fold as written also drops the right format after
    * its first item (`FoldOverlapsDropsTail`). */
  function ActionAddUnchecked(a: ActionSer, b: StructSer, otherActions: seq<ActionId>): (r: ActionSer)
    ensures r.st.byteOrder == a.st.byteOrder
    ensures Expand(r.st.fmt) == Expand(a.st.fmt + b.fmt)
    ensures |a.actions| + |otherActions| <= |r.actions|
    ensures r.actions[..|a.actions| + |otherActions|] == a.actions + otherActions
  {
    FoldOverlapsLayout(a.st.fmt, b.fmt);
    MakeAction(a.st.byteOrder, FoldOverlaps(a.st.fmt, b.fmt, false), a.actions + otherActions)
  }

  /** `__add__` with the byte-order check `StructSerializer.__add__` makes
    * (structs.py:161-165).  This is the join the rest of the model uses. */
  function ActionAdd(a: ActionSer, b: StructSer, otherActions: seq<ActionId>): (r: Result<ActionSer>)
    ensures r.Err? <==> a.st.byteOrder != b.byteOrder
    ensures r.Err? ==> r.error == ValueError
    ensures r.Ok? ==> r.value == ActionAddUnchecked(a, b, otherActions)
  {
    if a.st.byteOrder != b.byteOrder then Err(ValueError)
    else Ok(ActionAddUnchecked(a, b, otherActions))
  }

  /** `StructActionSerializer.__radd__` (structs.py:286-297) with a plain
    * struct on the left, keeping the code's byte-order handling: one
    * `noop_action` per value of the struct first, and the struct's byte order
    * for both halves.  The formats are joined with the corrected
    * `FoldOverlaps`, as for `ActionAddUnchecked`. */
  function ActionRaddUnchecked(a: ActionSer, left: StructSer): (r: ActionSer)
    ensures r.st.byteOrder == left.byteOrder
    ensures Expand(r.st.fmt) == Expand(left.fmt + a.st.fmt)
  {
    FoldOverlapsLayout(left.fmt, a.st.fmt);
    MakeAction(left.byteOrder, FoldOverlaps(left.fmt, a.st.fmt, false),
      Repeat(Noop, StructNumValues(left)) + a.actions)
  }

  /** `__radd__` with the byte-order check. */
  function ActionRadd(a: ActionSer, left: StructSer): (r: Result<ActionSer>)
    ensures r.Err? <==> a.st.byteOrder != left.byteOrder
    ensures r.Err? ==> r.error == ValueError
    ensures r.Ok? ==> r.value == ActionRaddUnchecked(a, left)
  {
    if a.st.byteOrder != left.byteOrder then Err(ValueError)
    else Ok(ActionRaddUnchecked(a, left))
  }

  /** As written, `'<h'` with actions plus a big-endian `'>h'` struct packs
    * the right-hand value little-endian. */
  lemma {:induction false} ActionAddIgnoresByteOrder()
    ensures StructPack(ActionAddUnchecked(MakeAction(LittleEndian, [Item(None, 'h')], []),
        StructSer([Item(None, 'h')], BigEndian), []).st, [Int(1), Int(1)])
      == Ok(Packed([1, 0, 1, 0], 4))
    ensures StructPack(StructSer([Item(None, 'h')], BigEndian), [Int(1)]) == Ok(Packed([0, 1], 2))
    ensures ActionAdd(MakeAction(LittleEndian, [Item(None, 'h')], []),
        StructSer([Item(None, 'h')], BigEndian), []) == Err(ValueError)
  {
    var h := [Item(None, 'h')];
    var h2 := [Item(Some(2), 'h')];
    assert Expand(h) == [Signed(2)];
    assert Repeat(Signed(2), 2) == [Signed(2), Signed(2)];
    assert Expand(h2) == [Signed(2), Signed(2)];
    assert NumValues(h) == 1;
    assert NumValues(h2) == 2;
    assert FoldOverlaps(h, h, false) == h2;
    OneAsShort();
  }

  /** As written, a big-endian `'>h'` struct plus `'<h'` with actions packs
    * the right-hand value big-endian, where the checked join refuses. */
  lemma {:induction false} ActionRaddIgnoresByteOrder()
    ensures StructPack(ActionRaddUnchecked(MakeAction(LittleEndian, [Item(None, 'h')], []),
        StructSer([Item(None, 'h')], BigEndian)).st, [Int(1), Int(1)])
      == Ok(Packed([0, 1, 0, 1], 4))
    ensures StructPack(StructSer([Item(None, 'h')], LittleEndian), [Int(1)]) == Ok(Packed([1, 0], 2))
    ensures ActionRadd(MakeAction(LittleEndian, [Item(None, 'h')], []),
        StructSer([Item(None, 'h')], BigEndian)) == Err(ValueError)
  {
    var h := [Item(None, 'h')];
    var h2 := [Item(Some(2), 'h')];
    assert Expand(h) == [Signed(2)];
    assert Repeat(Signed(2), 2) == [Signed(2), Signed(2)];
    assert Expand(h2) == [Signed(2), Signed(2)];
    assert NumValues(h) == 1;
    assert NumValues(h2) == 2;
    assert FoldOverlaps(h, h, false) == h2;
    OneAsShort();
  }

  /** `+` keeps one action per value, the left operand's actions first. */
  lemma {:induction false} ActionAddWellFormed(a: ActionSer, b: ActionSer)
    requires ActionWellFormed(a) && ActionWellFormed(b)
    ensures ActionWellFormed(ActionAddUnchecked(a, b.st, b.actions))
    ensures ActionAddUnchecked(a, b.st, b.actions).actions == a.actions + b.actions
  {
    FormatAppend(a.st.fmt, b.st.fmt);
  }

  lemma {:induction false} ActionAddStructWellFormed(a: ActionSer, b: StructSer)
    requires ActionWellFormed(a)
    ensures ActionWellFormed(ActionAddUnchecked(a, b, []))
    ensures ActionAddUnchecked(a, b, []).actions == a.actions + Repeat(Noop, StructNumValues(b))
  {
    hide FoldOverlaps, UnitsSize, ExpandItem;
    FormatAppend(a.st.fmt, b.fmt);
  }

  lemma {:induction false} ActionRaddWellFormed(a: ActionSer, left: StructSer)
    requires ActionWellFormed(a)
    ensures ActionWellFormed(ActionRaddUnchecked(a, left))
    ensures ActionRaddUnchecked(a, left).actions == Repeat(Noop, StructNumValues(left)) + a.actions
  {
    FormatAppend(left.fmt, a.st.fmt);
  }

  /** `'b' + StructActionSerializer('b')` is an action serializer for '2b'
    * whose two actions are both `noop_action`. */
  lemma {:induction false} StructPlusActionExample()
    ensures ActionRadd(MakeAction(Default, [Item(None, 'b')], []), StructSer([Item(None, 'b')], Default))
      == Ok(ActionSer(StructSer([Item(Some(2), 'b')], Default), [Noop, Noop]))
  {
    var one := [Item(None, 'b')];
    var two := [Item(Some(2), 'b')];
    assert Expand(one) == [Signed(1)];
    assert NumValues(one) == 1;
    assert Repeat(Signed(1), 2) == [Signed(1), Signed(1)];
    assert Expand(two) == [Signed(1), Signed(1)];
    assert NumValues(two) == 2;
    assert FoldOverlaps(one, one, false) == two;
    assert Repeat(Noop, 1) == [Noop];
    var a := MakeAction(Default, one, []);
    assert a.actions == [Noop];
    var r := ActionRaddUnchecked(a, StructSer(one, Default));
    assert r.st == StructSer(two, Default);
    assert r.actions == [Noop, Noop];
  }

  /** `StructActionSerializer.__mul__` (structs.py:299-302): the struct's `*`,
    * then the actions repeated `n` times; a factor that is not an int fails
    * with TypeError when the actions are repeated. */
  function ActionMul(a: ActionSer, k: Factor): (r: Result<ActionSer>)
    ensures k.NotInt? ==> r == Err(TypeError)
    ensures k.IntFactor? && k.n <= 0 ==> r == Err(ValueError)
    ensures r.Ok? ==> k.IntFactor? && k.n >= 1 && r.value.actions == Times(a.actions, k.n)
  {
    match MulImpl(a.st, k, false)
    case Err(e) => Err(e)
    case Ok(st) => Ok(ActionSer(st, Times(a.actions, k.n)))
  }

  lemma {:induction false} ActionMulWellFormed(a: ActionSer, n: int)
    requires ActionWellFormed(a) && n >= 1
    ensures ActionMul(a, IntFactor(n)).Ok?
    ensures ActionWellFormed(ActionMul(a, IntFactor(n)).value)
  {
    MulLayout(a.st, n);
  }

  /** `@` is not overridden for action serializers: the struct's `_mul_impl`
    * builds a fresh one whose actions are all `noop_action` (for `n >= 2`). */
  function ActionMatmul(a: ActionSer, k: Factor): (r: Result<ActionSer>)
    ensures r.Ok? && k.IntFactor? && k.n >= 2 ==> forall i :: 0 <= i < |r.value.actions| ==> r.value.actions[i] == Noop
  {
    match k
    case NotInt => Err(TypeError)
    case IntFactor(n) =>
      if n <= 0 then Err(ValueError)
      else if n == 1 then Ok(a)
      else Ok(MakeAction(a.st.byteOrder, Repeated(a.st.fmt, n, true), []))
  }

  /** `with_byte_order` (structs.py:257-261) keeps the actions. */
  function ActionWithByteOrder(a: ActionSer, bo: ByteOrder): (r: ActionSer)
    ensures r.actions == a.actions && r.st == StructWithByteOrder(a.st, bo)
  {
    ActionSer(StructWithByteOrder(a.st, bo), a.actions)
  }

  /** `StructActionSerializer.__eq__` (structs.py:304-310): same `format` and
    * the same actions. */
  predicate ActionEq(a: ActionSer, b: ActionSer)
  {
    FullFormat(a.st) == FullFormat(b.st) && a.actions == b.actions
  }
}
