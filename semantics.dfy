/** What `+` means: the serializer it builds behaves exactly like a
  * `CompoundSerializer` of its two operands.  For plain and action structs
  * this is the claim that folding two formats into one changes nothing
  * observable; for compounds it is the claim that `_add_impl` preserves
  * the behaviour of the chain it flattens. */
module Semantics {
  import opened Outcomes
  import opened Values
  import opened ByteOrders
  import opened PyStruct
  import opened Structs
  import opened Codecs
  import opened Compounds
  import opened Api

  // ---- struct-level splitting ----

  /** Packing two runs of fields one after the other is packing their
    * concatenation; the first field that fails decides the error. */
  lemma {:induction false} PackUnitsAppend(bo: ByteOrder, us1: seq<Unit>, us2: seq<Unit>, v1: seq<Value>, v2: seq<Value>)
    requires |v1| == UnitsValues(us1) && |v2| == UnitsValues(us2)
    ensures |v1 + v2| == UnitsValues(us1 + us2)
    ensures PackUnits(bo, us1 + us2, v1 + v2) == ThenBytes(PackUnits(bo, us1, v1), PackUnits(bo, us2, v2))
  {
    UnitsSizeAppend(us1, us2);
    if us1 == [] {
      assert us1 + us2 == us2 && v1 + v2 == v2;
      var p2 := PackUnits(bo, us2, v2);
      assert p2.Ok? ==> [] + p2.value == p2.value;
    } else if !HasValue(us1[0]) {
      UnitsSizeAppend(us1[1..], us2);
      PackUnitsAppend(bo, us1[1..], us2, v1, v2);
      PackPadStep(bo, us1, us2, v1, v2);
    } else {
      UnitsSizeAppend(us1[1..], us2);
      PackUnitsAppend(bo, us1[1..], us2, v1[1..], v2);
      PackValueStep(bo, us1, us2, v1, v2);
    }
  }

  lemma {:induction false} PackPadStep(bo: ByteOrder, us1: seq<Unit>, us2: seq<Unit>, v1: seq<Value>, v2: seq<Value>)
    requires us1 != [] && !HasValue(us1[0])
    requires |v1| == UnitsValues(us1) && |v2| == UnitsValues(us2)
    requires |v1 + v2| == UnitsValues(us1 + us2) && |v1 + v2| == UnitsValues(us1[1..] + us2)
    requires PackUnits(bo, us1[1..] + us2, v1 + v2) == ThenBytes(PackUnits(bo, us1[1..], v1), PackUnits(bo, us2, v2))
    ensures PackUnits(bo, us1 + us2, v1 + v2) == ThenBytes(PackUnits(bo, us1, v1), PackUnits(bo, us2, v2))
  {
    ConcatSplit(us1, us2, 1);
    ThenBytesAssoc(Ok([0]), PackUnits(bo, us1[1..], v1), PackUnits(bo, us2, v2));
  }

  lemma {:induction false} PackValueStep(bo: ByteOrder, us1: seq<Unit>, us2: seq<Unit>, v1: seq<Value>, v2: seq<Value>)
    requires us1 != [] && HasValue(us1[0])
    requires |v1| == UnitsValues(us1) && |v2| == UnitsValues(us2)
    requires |v1 + v2| == UnitsValues(us1 + us2) && |v1[1..] + v2| == UnitsValues(us1[1..] + us2)
    requires PackUnits(bo, us1[1..] + us2, v1[1..] + v2) == ThenBytes(PackUnits(bo, us1[1..], v1[1..]), PackUnits(bo, us2, v2))
    ensures PackUnits(bo, us1 + us2, v1 + v2) == ThenBytes(PackUnits(bo, us1, v1), PackUnits(bo, us2, v2))
  {
    ConcatSplit(us1, us2, 1);
    ConcatSplit(v1, v2, 1);
    ThenBytesAssoc(PackUnit(bo, us1[0], v1[0]), PackUnits(bo, us1[1..], v1[1..]), PackUnits(bo, us2, v2));
  }

  /** Unpacking the concatenation of two runs of fields from the
    * concatenation of their bytes gives the two value lists one after the
    * other. */
  lemma {:induction false} UnpackUnitsAppend(bo: ByteOrder, us1: seq<Unit>, us2: seq<Unit>, b1: seq<byte>, b2: seq<byte>)
    requires |b1| == UnitsSize(us1) && |b2| == UnitsSize(us2)
    ensures UnitsSize(us1 + us2) == |b1 + b2|
    ensures UnpackUnits(bo, us1 + us2, b1 + b2) == UnpackUnits(bo, us1, b1) + UnpackUnits(bo, us2, b2)
  {
    UnitsSizeAppend(us1, us2);
    if us1 == [] {
      assert us1 + us2 == us2 && b1 + b2 == b2;
    } else {
      var w := Width(us1[0]);
      UnitsSizeAppend(us1[1..], us2);
      UnpackUnitsAppend(bo, us1[1..], us2, b1[w..], b2);
      UnpackStep(bo, us1, us2, b1, b2);
    }
  }

  lemma {:induction false} UnpackStep(bo: ByteOrder, us1: seq<Unit>, us2: seq<Unit>, b1: seq<byte>, b2: seq<byte>)
    requires us1 != [] && |b1| == UnitsSize(us1) && |b2| == UnitsSize(us2)
    requires UnitsSize(us1 + us2) == |b1 + b2| && UnitsSize(us1[1..] + us2) == |b1[Width(us1[0])..] + b2|
    requires UnpackUnits(bo, us1[1..] + us2, b1[Width(us1[0])..] + b2)
      == UnpackUnits(bo, us1[1..], b1[Width(us1[0])..]) + UnpackUnits(bo, us2, b2)
    ensures UnpackUnits(bo, us1 + us2, b1 + b2) == UnpackUnits(bo, us1, b1) + UnpackUnits(bo, us2, b2)
  {
    var w := Width(us1[0]);
    ConcatSplit(us1, us2, 1);
    ConcatSplit(b1, b2, w);
    var head := UnpackField(bo, us1[0], b1[..w]);
    var rest1 := UnpackUnits(bo, us1[1..], b1[w..]);
    var rest2 := UnpackUnits(bo, us2, b2);
    ConcatAssoc(head, rest1, rest2);
  }

  lemma {:induction false} PrefixParts<T>(s: seq<T>, w: nat, n: nat)
    requires w <= n <= |s|
    ensures s[..n][w..] == s[w..][..n - w]
    ensures s[w..][n - w..] == s[n..]
    ensures s[..n][..w] == s[..w]
  {
  }

  lemma {:induction false} ApplyActionsAppend(t: ActionTable, a1: seq<ActionId>, a2: seq<ActionId>, v1: seq<Value>, v2: seq<Value>)
    requires |a1| == |v1|
    ensures ApplyActions(t, a1 + a2, v1 + v2) == ApplyActions(t, a1, v1) + ApplyActions(t, a2, v2)
  {
    var l := ApplyActions(t, a1 + a2, v1 + v2);
    var r := ApplyActions(t, a1, v1) + ApplyActions(t, a2, v2);
    assert |l| == |r|;
    forall i | 0 <= i < |l|
      ensures l[i] == r[i]
    {
      if i >= |a1| {
        assert (a1 + a2)[i] == a2[i - |a1|] && (v1 + v2)[i] == v2[i - |a1|];
      }
    }
  }

  /** Every action `noop_action`: the values come back as unpacked. */
  lemma {:induction false} ApplyNoops(t: ActionTable, n: nat, vs: seq<Value>)
    requires |vs| == n
    ensures ApplyActions(t, Repeat(Noop, n), vs) == vs
  {
    RepeatAt(Noop, n);
  }

  /** A struct whose fields are those of `a` followed by those of `b`, in
    * their common byte order. */
  predicate Joins(j: StructSer, a: StructSer, b: StructSer)
  {
    j.byteOrder == a.byteOrder && b.byteOrder == a.byteOrder
    && Expand(j.fmt) == Expand(a.fmt) + Expand(b.fmt)
  }

  lemma {:induction false} JoinsSizes(j: StructSer, a: StructSer, b: StructSer)
    requires Joins(j, a, b)
    ensures StructSize(j) == StructSize(a) + StructSize(b)
    ensures StructNumValues(j) == StructNumValues(a) + StructNumValues(b)
  {
    UnitsSizeAppend(Expand(a.fmt), Expand(b.fmt));
  }

  lemma {:induction false} JoinsFold(a: StructSer, b: StructSer)
    requires a.byteOrder == b.byteOrder
    ensures Joins(StructSer(FoldOverlaps(a.fmt, b.fmt, false), a.byteOrder), a, b)
  {
    FoldOverlapsLayout(a.fmt, b.fmt);
    ExpandAppend(a.fmt, b.fmt);
  }

  lemma {:induction false} StructPackJoin(j: StructSer, a: StructSer, b: StructSer, v1: seq<Value>, v2: seq<Value>)
    requires Joins(j, a, b)
    requires |v1| == StructNumValues(a) && |v2| == StructNumValues(b)
    ensures StructPack(j, v1 + v2) == ThenPack(StructPack(a, v1), StructPack(b, v2))
  {
    JoinsSizes(j, a, b);
    PackUnitsAppend(a.byteOrder, Expand(a.fmt), Expand(b.fmt), v1, v2);
  }

  /** The joined struct reads its fields exactly as the two structs would,
    * the second starting where the first ends; a buffer too short for
    * either is a `struct.error` both ways. */
  lemma {:induction false} StructUnpackJoin(j: StructSer, a: StructSer, b: StructSer, bs: seq<byte>)
    requires Joins(j, a, b)
    ensures StructUnpack(j, bs)
      == var h := StructUnpack(a, bs);
         if h.Err? then h else ThenUnpack(h, StructUnpack(b, Drop(bs, h.value.size)))
  {
    JoinsSizes(j, a, b);
    var sa := StructSize(a);
    var sb := StructSize(b);
    if |bs| >= sa + sb {
      StructUnpackJoinFits(j, a, b, bs);
    } else if |bs| >= sa {
      DropIsSuffix(bs, sa);
    }
  }

  lemma {:induction false} StructUnpackJoinFits(j: StructSer, a: StructSer, b: StructSer, bs: seq<byte>)
    requires Joins(j, a, b)
    requires StructSize(j) == StructSize(a) + StructSize(b)
    requires |bs| >= StructSize(a) + StructSize(b)
    ensures StructUnpack(j, bs) == ThenUnpack(StructUnpack(a, bs), StructUnpack(b, Drop(bs, StructSize(a))))
  {
    var xa, xb := JoinedBytes(j, a, b, bs);
    JoinedUnpack(j, a, b, bs, xa, xb);
    JoinedHalves(j, a, b, bs, xa, xb);
  }

  lemma {:induction false} JoinedHalves(j: StructSer, a: StructSer, b: StructSer, bs: seq<byte>, xa: seq<byte>, xb: seq<byte>)
    requires StructSize(j) == StructSize(a) + StructSize(b) && |bs| >= StructSize(j)
    requires xa == bs[..StructSize(a)]
    requires StructSize(b) <= |Drop(bs, StructSize(a))|
    requires xb == Drop(bs, StructSize(a))[..StructSize(b)]
    requires StructUnpack(j, bs) == Ok(Unpacked(UnpackUnits(a.byteOrder, Expand(a.fmt), xa)
                                                + UnpackUnits(b.byteOrder, Expand(b.fmt), xb), StructSize(j)))
    ensures StructUnpack(j, bs) == ThenUnpack(StructUnpack(a, bs), StructUnpack(b, Drop(bs, StructSize(a))))
  {
    var ua := UnpackUnits(a.byteOrder, Expand(a.fmt), xa);
    var ub := UnpackUnits(b.byteOrder, Expand(b.fmt), xb);
    assert StructUnpack(a, bs) == Ok(Unpacked(ua, StructSize(a))) by {
      StructUnpackBytes(a, bs, xa);
    }
    assert StructUnpack(b, Drop(bs, StructSize(a))) == Ok(Unpacked(ub, StructSize(b))) by {
      StructUnpackBytes(b, Drop(bs, StructSize(a)), xb);
    }
  }

  /** The bytes a joined struct reads are those of its two halves. */
  lemma {:induction false} JoinedBytes(j: StructSer, a: StructSer, b: StructSer, bs: seq<byte>) returns (xa: seq<byte>, xb: seq<byte>)
    requires |bs| >= StructSize(a) + StructSize(b)
    ensures xa == bs[..StructSize(a)]
    ensures StructSize(b) <= |Drop(bs, StructSize(a))|
    ensures xb == Drop(bs, StructSize(a))[..StructSize(b)]
    ensures bs[..StructSize(a) + StructSize(b)] == xa + xb
  {
    PrefixThenDrop(bs, StructSize(a), StructSize(b));
    xa := bs[..StructSize(a)];
    xb := Drop(bs, StructSize(a))[..StructSize(b)];
  }

  lemma {:induction false} JoinedUnpack(j: StructSer, a: StructSer, b: StructSer, bs: seq<byte>, xa: seq<byte>, xb: seq<byte>)
    requires Joins(j, a, b) && StructSize(j) == StructSize(a) + StructSize(b) && |bs| >= StructSize(j)
    requires |xa| == StructSize(a) && |xb| == StructSize(b) && bs[..StructSize(a) + StructSize(b)] == xa + xb
    ensures StructUnpack(j, bs) == Ok(Unpacked(UnpackUnits(a.byteOrder, Expand(a.fmt), xa)
                                               + UnpackUnits(b.byteOrder, Expand(b.fmt), xb), StructSize(j)))
  {
    StructUnpackBytes(j, bs, xa + xb);
    JoinsUnpackUnits(j, a, b, xa, xb);
  }

  lemma {:induction false} JoinsUnpackUnits(j: StructSer, a: StructSer, b: StructSer, xa: seq<byte>, xb: seq<byte>)
    requires Joins(j, a, b) && |xa| == StructSize(a) && |xb| == StructSize(b)
    ensures |xa + xb| == UnitsSize(Expand(j.fmt))
    ensures UnpackUnits(j.byteOrder, Expand(j.fmt), xa + xb)
      == UnpackUnits(a.byteOrder, Expand(a.fmt), xa) + UnpackUnits(b.byteOrder, Expand(b.fmt), xb)
  {
    UnpackUnitsAppend(a.byteOrder, Expand(a.fmt), Expand(b.fmt), xa, xb);
  }

  lemma {:induction false} StructUnpackBytes(s: StructSer, bs: seq<byte>, x: seq<byte>)
    requires StructSize(s) <= |bs| && x == bs[..StructSize(s)]
    ensures StructUnpack(s, bs) == Ok(Unpacked(UnpackUnits(s.byteOrder, Expand(s.fmt), x), StructSize(s)))
  {
  }

  // ---- `+` between structs ----

  /** `a + b` of two struct serializers with one byte order packs exactly
    * what a `CompoundSerializer` of the two packs, for every value tuple of
    * the right length: folding the formats changes nothing observable. */
  lemma {:induction false} StructAddPacksLikeCompound(a: StructSer, b: StructSer, obj: Value, vs: seq<Value>)
    requires StructAdd(a, b).Ok?
    requires |vs| == StructNumValues(a) + StructNumValues(b)
    ensures PackWith(StructCodec(StructAdd(a, b).value), obj, vs)
      == CompoundPack([StructCodec(a), StructCodec(b)], obj, vs)
  {
    var j := StructAdd(a, b).value;
    JoinsFold(a, b);
    var na, nb := StructNumValues(a), StructNumValues(b);
    var v1, v2 := Slice(vs, 0, na), Slice(vs, na, na + nb);
    SliceIsSubsequence(vs, 0, na);
    SliceIsSubsequence(vs, na, na + nb);
    assert vs == v1 + v2;
    StructPackJoin(j, a, b, v1, v2);
    CompoundPackPair(StructCodec(a), StructCodec(b), obj, vs);
  }

  /** ... and unpacks every buffer exactly as the compound does, including
    * which buffers are too short. */
  lemma {:induction false} StructAddUnpacksLikeCompound(a: StructSer, b: StructSer, obj: Value, bs: seq<byte>)
    requires StructAdd(a, b).Ok?
    ensures UnpackWith(StructCodec(StructAdd(a, b).value), obj, bs)
      == CompoundUnpack([StructCodec(a), StructCodec(b)], obj, bs)
  {
    var j := StructAdd(a, b).value;
    JoinsFold(a, b);
    StructUnpackJoin(j, a, b, bs);
    CompoundUnpackPair(StructCodec(a), StructCodec(b), obj, bs);
  }

  /** ... and reads at every offset exactly as the compound does. */
  lemma {:induction false} StructAddUnpacksFromLikeCompound(a: StructSer, b: StructSer, obj: Value, bs: seq<byte>, off: nat)
    requires StructAdd(a, b).Ok?
    ensures UnpackFromWith(StructCodec(StructAdd(a, b).value), obj, bs, off)
      == CompoundUnpackFrom([StructCodec(a), StructCodec(b)], obj, bs, off)
  {
    var j := StructAdd(a, b).value;
    JoinsFold(a, b);
    CompoundUnpackFromPair(StructCodec(a), StructCodec(b), obj, bs, off);
    if off <= |bs| {
      JoinedUnpackFrom(j, a, b, bs, off);
    } else {
      assert StructUnpackFrom(a, bs, off) == Err(StructError);
      assert StructUnpackFrom(j, bs, off) == Err(StructError);
    }
  }

  lemma {:induction false} JoinedUnpackFrom(j: StructSer, a: StructSer, b: StructSer, bs: seq<byte>, off: nat)
    requires Joins(j, a, b) && off <= |bs|
    ensures StructUnpackFrom(j, bs, off)
      == var h := StructUnpackFrom(a, bs, off);
         if h.Err? then h else ThenUnpack(h, StructUnpackFrom(b, bs, off + h.value.size))
  {
    JoinsSizes(j, a, b);
    var sa := StructSize(a);
    StructUnpackFromIsUnpack(j, bs, off);
    StructUnpackFromIsUnpack(a, bs, off);
    StructUnpackJoin(j, a, b, bs[off..]);
    if off + sa <= |bs| {
      StructUnpackFromIsUnpack(b, bs, off + sa);
      assert Drop(bs[off..], sa) == bs[off + sa..] by {
        DropIsSuffix(bs[off..], sa);
      }
    }
  }

  /** Reading at an offset is reading the buffer from that offset on. */
  lemma {:induction false} StructUnpackFromIsUnpack(s: StructSer, bs: seq<byte>, off: nat)
    requires off <= |bs|
    ensures StructUnpackFrom(s, bs, off) == StructUnpack(s, bs[off..])
  {
  }
}
