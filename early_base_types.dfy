/** The serializers of structured/base_types.py: plain `struct.Struct`
  * serializers, the action variant `struct_cache` may choose, and the
  * compound that hands each child a slice of the values. */
module EarlyBaseTypes {
  import opened Outcomes
  import opened Values
  import opened ByteOrders
  import opened PyStruct
  import opened Codecs
  import Structs
  import Compounds

  // ---- the serializers ----

  /** A `StructSerializer` (a `struct.Struct` of the byte order and format),
    * a `StructActionSerializer` (the same with unpack actions), or any other
    * serializer, known by its behaviour. */
  datatype Ser =
    | PlainStruct(bo: ByteOrder, fmt: Format)
    | ActionStruct(bo: ByteOrder, fmt: Format, actions: seq<Structs.ActionId>)
    | Custom(codec: Codec)

  predicate IsStruct(s: Ser) { s.PlainStruct? || s.ActionStruct? }

  /** Some action is not `noop_action`. */
  predicate HasAction(actions: seq<Structs.ActionId>)
  {
    exists i :: 0 <= i < |actions| && actions[i] != Structs.Noop
  }

  /** `struct_cache` (base_types.py:277-286): the action serializer only
    * when some action does something. */
  function StructCache(bo: ByteOrder, fmt: Format, actions: seq<Structs.ActionId>): (r: Ser)
    ensures IsStruct(r) && r.bo == bo && r.fmt == fmt
    ensures r.ActionStruct? <==> HasAction(actions)
    ensures r.ActionStruct? ==> r.actions == actions
  {
    if HasAction(actions) then ActionStruct(bo, fmt, actions) else PlainStruct(bo, fmt)
  }

  /** The values after the unpack actions: `apply_actions` (base_types.py:188-196)
    * zips the actions with the values, so the shorter decides the count. */
  function Acted(t: Structs.ActionTable, s: Ser, raw: seq<Value>): seq<Value>
  {
    if s.ActionStruct? then Structs.ApplyActions(t, s.actions, raw) else raw
  }

  /** `pack` of one serializer; `struct.pack` wants one value per field. */
  function SerPack(s: Ser, vs: seq<Value>): Result<seq<byte>>
  {
    match s
    case Custom(c) =>
      var p := PackWith(c, NoneValue, vs);
      if p.Err? then Err(p.error) else Ok(p.value.data)
    case _ => PyStruct.Pack(s.bo, s.fmt, vs)
  }

  /** `unpack` of a struct serializer: `struct.unpack` wants a buffer of
    * exactly the struct's size; `size` is that size. */
  function StructUnpack(t: Structs.ActionTable, s: Ser, bs: seq<byte>): Result<Unpacked>
    requires IsStruct(s)
  {
    var u := PyStruct.Unpack(s.bo, s.fmt, bs);
    if u.Err? then Err(u.error) else Ok(Unpacked(Acted(t, s, u.value), CalcSize(s.fmt)))
  }

  /** The action serializer is left out only where it would change nothing:
    * with an action for every value, both choices of `struct_cache` unpack
    * to the values with every action applied. */
  lemma {:induction false} StructCacheSound(t: Structs.ActionTable, bo: ByteOrder, fmt: Format,
                         actions: seq<Structs.ActionId>, bs: seq<byte>)
    requires |actions| >= NumValues(fmt)
    ensures var u := PyStruct.Unpack(bo, fmt, bs);
      StructUnpack(t, StructCache(bo, fmt, actions), bs)
      == if u.Err? then Err(u.error)
         else Ok(Unpacked(Structs.ApplyActions(t, actions, u.value), CalcSize(fmt)))
  {
    var u := PyStruct.Unpack(bo, fmt, bs);
    if u.Ok? && !HasAction(actions) {
      var applied := Structs.ApplyActions(t, actions, u.value);
      assert |applied| == |u.value|;
      forall i | 0 <= i < |u.value| ensures applied[i] == u.value[i] {
        assert actions[i] == Structs.Noop;
      }
      assert applied == u.value;
    }
  }

  // ---- the compound ----

  /** One entry of the compound's dict: a serializer and the slice
    * `values[lo:hi]` it packs (the dict's keys are distinct serializers). */
  datatype Part = Part(ser: Ser, lo: nat, hi: nat)

  /** Child `k` reads the buffer from `start`: a struct child exactly its own
    * bytes `buffer[start:start + size]`, any other child the whole rest
    * `buffer[start:]` (base_types.py:244-258). */
  function ChildUnpack(t: Structs.ActionTable, s: Ser, bs: seq<byte>, start: nat): Result<Unpacked>
  {
    if IsStruct(s) then StructUnpack(t, s, Slice(bs, start, start + CalcSize(s.fmt)))
    else UnpackWith(s.codec, NoneValue, Drop(bs, start))
  }

  /** Child `k` reads at an offset (base_types.py:260-267). */
  function ChildUnpackFrom(t: Structs.ActionTable, s: Ser, bs: seq<byte>, off: nat): Result<Unpacked>
  {
    if IsStruct(s) then
      var u := PyStruct.UnpackFrom(s.bo, s.fmt, bs, off);
      if u.Err? then Err(u.error) else Ok(Unpacked(Acted(t, s, u.value), CalcSize(s.fmt)))
    else UnpackFromWith(s.codec, NoneValue, bs, off)
  }

  /** `pack` (base_types.py:227-231): each child's bytes for its own slice of
    * the values, in dict order; the first failure is the result. */
  function PackParts(parts: seq<Part>, k: nat, vs: seq<Value>): Result<seq<byte>>
    decreases |parts| - k
  {
    if k >= |parts| then Ok([])
    else
      var head := SerPack(parts[k].ser, Slice(vs, parts[k].lo, parts[k].hi));
      if head.Err? then head
      else
        var rest := PackParts(parts, k + 1, vs);
        if rest.Err? then rest else Ok(head.value + rest.value)
  }

  /** `unpack` from child `k` on, the children before it having ended at
    * `start`; `size` is where the last child ends. */
  function UnpackParts(t: Structs.ActionTable, parts: seq<Part>, k: nat, bs: seq<byte>, start: nat): Result<Unpacked>
    decreases |parts| - k
  {
    if k >= |parts| then Ok(Unpacked([], start))
    else
      var head := ChildUnpack(t, parts[k].ser, bs, start);
      if head.Err? then head
      else
        var rest := UnpackParts(t, parts, k + 1, bs, start + head.value.size);
        if rest.Err? then rest else Ok(Unpacked(head.value.values + rest.value.values, rest.value.size))
  }

  /** `unpack_from` from child `k` on, the earlier children having read
    * `size` bytes from `off`. */
  function UnpackFromParts(t: Structs.ActionTable, parts: seq<Part>, k: nat, bs: seq<byte>, off: nat, size: nat): Result<Unpacked>
    decreases |parts| - k
  {
    if k >= |parts| then Ok(Unpacked([], size))
    else
      var head := ChildUnpackFrom(t, parts[k].ser, bs, off + size);
      if head.Err? then head
      else
        var rest := UnpackFromParts(t, parts, k + 1, bs, off, size + head.value.size);
        if rest.Err? then rest else Ok(Unpacked(head.value.values + rest.value.values, rest.value.size))
  }

  /** `pack_into`'s effect on the buffer: `d` written at `pos`. */
  function Overwrite(b: seq<byte>, pos: nat, d: seq<byte>): (r: seq<byte>)
    requires pos + |d| <= |b|
    ensures |r| == |b|
  {
    b[..pos] + d + b[pos + |d|..]
  }

  /** Every byte of the written buffer: `d`'s from `pos` on, the old ones
    * elsewhere. */
  lemma {:induction false} OverwriteAt(b: seq<byte>, pos: nat, d: seq<byte>)
    requires pos + |d| <= |b|
    ensures forall i :: 0 <= i < |b| ==> Overwrite(b, pos, d)[i] == if pos <= i < pos + |d| then d[i - pos] else b[i]
  {
    var r := Overwrite(b, pos, d);
    forall i | 0 <= i < |b| ensures r[i] == if pos <= i < pos + |d| then d[i - pos] else b[i] {
      if i < pos {
        assert r[i] == b[..pos][i];
      } else if i < pos + |d| {
        assert r[i] == (b[..pos] + d)[i];
      } else {
        assert r[i] == b[pos + |d|..][i - pos - |d|];
      }
    }
  }

  /** Writing `x` and then `y` right after it is writing `x + y`. */
  lemma {:induction false} OverwriteAppend(b: seq<byte>, pos: nat, x: seq<byte>, y: seq<byte>)
    requires pos + |x| + |y| <= |b|
    ensures Overwrite(Overwrite(b, pos, x), pos + |x|, y) == Overwrite(b, pos, x + y)
  {
    var l, r := Overwrite(Overwrite(b, pos, x), pos + |x|, y), Overwrite(b, pos, x + y);
    OverwriteAt(b, pos, x);
    OverwriteAt(Overwrite(b, pos, x), pos + |x|, y);
    OverwriteAt(b, pos, x + y);
    forall i | 0 <= i < |b| ensures l[i] == r[i] {
      if pos <= i < pos + |x| {
        assert (x + y)[i - pos] == x[i - pos];
      } else if pos + |x| <= i < pos + |x| + |y| {
        assert (x + y)[i - pos] == y[i - pos - |x|];
      }
    }
  }

  /** Writing `y` after the place of `x` and then `x` in front of it is
    * writing `x + y` too: the order of the writes does not matter. */
  lemma {:induction false} OverwriteBefore(b: seq<byte>, pos: nat, mid: nat, x: seq<byte>, y: seq<byte>)
    requires mid == pos + |x| && mid + |y| <= |b|
    ensures Overwrite(Overwrite(b, mid, y), pos, x) == Overwrite(b, pos, x + y)
  {
    var l, r := Overwrite(Overwrite(b, mid, y), pos, x), Overwrite(b, pos, x + y);
    OverwriteAt(b, mid, y);
    OverwriteAt(Overwrite(b, mid, y), pos, x);
    OverwriteAt(b, pos, x + y);
    forall i | 0 <= i < |b| ensures l[i] == r[i] {
      if pos <= i < pos + |x| {
        assert (x + y)[i - pos] == x[i - pos];
      } else if pos + |x| <= i < pos + |x| + |y| {
        assert (x + y)[i - pos] == y[i - pos - |x|];
      }
    }
  }

  /** From `pos` on, the buffer holds `d` and then what it held after it. */
  lemma {:induction false} OverwriteTail(b: seq<byte>, pos: nat, d: seq<byte>)
    requires pos + |d| <= |b|
    ensures Overwrite(b, pos, d)[pos..] == d + b[pos + |d|..]
    ensures Overwrite(b, pos, d)[pos..pos + |d|] == d
  {
    assert b[..pos] + d + b[pos + |d|..] == b[..pos] + (d + b[pos + |d|..]);
  }

  /** The buffer after `pack_into` has written `d` at `pos`: untouched when
    * nothing was written past its end (a compound of no children). */
  function Written(b: seq<byte>, pos: nat, d: seq<byte>): (r: seq<byte>)
    ensures |r| == |b|
    ensures pos + |d| <= |b| ==> r == Overwrite(b, pos, d)
  {
    if pos + |d| <= |b| then Overwrite(b, pos, d) else b
  }

  lemma {:induction false} OverwriteEmpty(b: seq<byte>, pos: nat)
    ensures Written(b, pos, []) == b
  {
    if pos <= |b| {
      assert Overwrite(b, pos, []) == b;
    }
  }

  /** One more child's bytes, written right after the earlier ones. */
  lemma {:induction false} WrittenStep(b: seq<byte>, pos: nat, out: seq<byte>, d: seq<byte>)
    requires pos + |out| + |d| <= |b|
    ensures Overwrite(Written(b, pos, out), pos + |out|, d) == Written(b, pos, out + d)
  {
    OverwriteAppend(b, pos, out, d);
  }

  // ---- unpack_from agrees with unpack ----

  /** Every custom child reads at an offset as it reads the buffer's tail,
    * and every struct child has at least one byte (`struct.unpack_from`
    * refuses an offset past the end even for an empty struct, where
    * `unpack` of the empty tail succeeds). */
  ghost predicate OffsetConsistentParts(parts: seq<Part>)
  {
    forall j :: 0 <= j < |parts| ==>
      if parts[j].ser.Custom? then Compounds.OffsetConsistent(parts[j].ser.codec)
      else CalcSize(parts[j].ser.fmt) > 0
  }

  lemma {:induction false} ChildShift(t: Structs.ActionTable, s: Ser, bs: seq<byte>, off: nat, size: nat)
    requires if s.Custom? then Compounds.OffsetConsistent(s.codec) else CalcSize(s.fmt) > 0
    ensures ChildUnpackFrom(t, s, bs, off + size) == ChildUnpack(t, s, Drop(bs, off), size)
  {
    DropDrop(bs, off, size);
    if IsStruct(s) {
      var n := CalcSize(s.fmt);
      var w := Slice(Drop(bs, off), size, size + n);
      assert w == Slice(bs, off + size, off + size + n);
      if off + size + n <= |bs| {
        SliceIsSubsequence(bs, off + size, off + size + n);
      } else {
        DropLength(bs, off + size);
        TakeLength(Drop(bs, off + size), n);
        assert |w| < n;
      }
    }
  }

  lemma {:induction false} UnpackFromPartsShift(t: Structs.ActionTable, parts: seq<Part>, k: nat,
                                               bs: seq<byte>, off: nat, size: nat)
    requires OffsetConsistentParts(parts)
    ensures UnpackFromParts(t, parts, k, bs, off, size) == UnpackParts(t, parts, k, Drop(bs, off), size)
    decreases |parts| - k
  {
    if k < |parts| {
      ChildShift(t, parts[k].ser, bs, off, size);
      var head := ChildUnpackFrom(t, parts[k].ser, bs, off + size);
      if head.Ok? {
        UnpackFromPartsShift(t, parts, k + 1, bs, off, size + head.value.size);
      }
    }
  }

  /** `unpack_from(buffer, off)` reads what `unpack(buffer[off:])` reads,
    * with the same `size`, when the custom children behave that way. */
  lemma {:induction false} UnpackFromAgrees(t: Structs.ActionTable, parts: seq<Part>, bs: seq<byte>, off: nat)
    requires OffsetConsistentParts(parts)
    ensures UnpackFromParts(t, parts, 0, bs, off, 0) == UnpackParts(t, parts, 0, Drop(bs, off), 0)
  {
    UnpackFromPartsShift(t, parts, 0, bs, off, 0);
  }

  // ---- round trip ----

  /** The serializer packs `vs`, and reads those values back, with its size
    * being their length, from any buffer holding those bytes at `start`. */
  ghost predicate ReadsBack(t: Structs.ActionTable, s: Ser, vs: seq<Value>)
  {
    SerPack(s, vs).Ok?
    && forall bs: seq<byte>, start: nat ::
         Slice(bs, start, start + |SerPack(s, vs).value|) == SerPack(s, vs).value ==>
         ChildUnpack(t, s, bs, start) == Ok(Unpacked(vs, |SerPack(s, vs).value|))
  }

  /** A plain struct reads back every tuple of values it represents exactly. */
  lemma {:induction false} PlainStructReadsBack(t: Structs.ActionTable, bo: ByteOrder, fmt: Format, vs: seq<Value>)
    requires CanonicalValues(Expand(fmt), vs)
    ensures ReadsBack(t, PlainStruct(bo, fmt), vs)
  {
    PyStruct.PackUnpackRoundTrip(bo, fmt, vs);
  }

  /** The dict's slices cut the values, from index `i` on, into consecutive
    * pieces that the children from `k` on read back. */
  ghost predicate Covers(t: Structs.ActionTable, parts: seq<Part>, k: nat, i: nat, vs: seq<Value>)
    decreases |parts| - k
  {
    if k >= |parts| then i == |vs|
    else
      parts[k].lo == i && i <= parts[k].hi <= |vs|
      && ReadsBack(t, parts[k].ser, vs[i..parts[k].hi])
      && Covers(t, parts, k + 1, parts[k].hi, vs)
  }

  /** A window of `a + b` bytes holding `x + y` holds `x` and then `y`. */
  lemma {:induction false} SplitWindow(bs: seq<byte>, start: nat, x: seq<byte>, y: seq<byte>)
    requires Slice(bs, start, start + |x| + |y|) == x + y
    ensures Slice(bs, start, start + |x|) == x
    ensures Slice(bs, start + |x|, start + |x| + |y|) == y
  {
    var n := |x| + |y|;
    if n == 0 {
      return;
    }
    assert start + n <= |bs| by {
      DropLength(bs, start);
      TakeLength(Drop(bs, start), n);
    }
    var w := bs[start..start + n];
    assert w == x + y by {
      SliceIsSubsequence(bs, start, start + n);
    }
    assert Slice(bs, start, start + |x|) == w[..|x|] by {
      SliceIsSubsequence(bs, start, start + |x|);
      assert bs[start..start + |x|] == w[..|x|];
    }
    assert Slice(bs, start + |x|, start + n) == w[|x|..] by {
      SliceIsSubsequence(bs, start + |x|, start + n);
      assert bs[start + |x|..start + n] == w[|x|..];
    }
  }

  lemma {:induction false} RoundTripFrom(t: Structs.ActionTable, parts: seq<Part>, k: nat, i: nat,
                                        vs: seq<Value>, bs: seq<byte>, start: nat)
    requires Covers(t, parts, k, i, vs)
    ensures i <= |vs|
    ensures PackParts(parts, k, vs).Ok?
    ensures var d := PackParts(parts, k, vs).value;
      Slice(bs, start, start + |d|) == d ==> UnpackParts(t, parts, k, bs, start) == Ok(Unpacked(vs[i..], start + |d|))
    decreases |parts| - k
  {
    hide *;
    if k >= |parts| {
      PartsEnd(t, parts, k, i, vs, bs, start);
      assert vs[i..] == [];
    } else {
      CoversStep(t, parts, k, i, vs);
      var p := parts[k];
      var piece := vs[i..p.hi];
      SliceIsSubsequence(vs, i, p.hi);
      ReadsBackPacks(t, p.ser, piece);
      var x := SerPack(p.ser, piece).value;
      RoundTripFrom(t, parts, k + 1, p.hi, vs, bs, start + |x|);
      var y := PackParts(parts, k + 1, vs).value;
      PackPartsStep(parts, k, vs, x, y);
      if Slice(bs, start, start + |x + y|) == x + y {
        SplitWindow(bs, start, x, y);
        ReadsBackAt(t, p.ser, piece, bs, start);
        UnpackPartsStep(t, parts, k, bs, start, piece, |x|, vs[p.hi..], start + |x| + |y|);
        assert piece + vs[p.hi..] == vs[i..];
      }
    }
  }

  /** Past the last child: nothing is left to cover, pack or read. */
  lemma {:induction false} PartsEnd(t: Structs.ActionTable, parts: seq<Part>, k: nat, i: nat,
                                   vs: seq<Value>, bs: seq<byte>, start: nat)
    requires Covers(t, parts, k, i, vs) && k >= |parts|
    ensures i == |vs| && PackParts(parts, k, vs) == Ok([])
    ensures UnpackParts(t, parts, k, bs, start) == Ok(Unpacked([], start))
  {
  }

  /** Child `k` takes the values from `i` to its upper bound, reads them
    * back, and the rest of the children cover what follows. */
  lemma {:induction false} CoversStep(t: Structs.ActionTable, parts: seq<Part>, k: nat, i: nat, vs: seq<Value>)
    requires Covers(t, parts, k, i, vs) && k < |parts|
    ensures parts[k].lo == i && i <= parts[k].hi <= |vs|
    ensures ReadsBack(t, parts[k].ser, vs[i..parts[k].hi])
    ensures Covers(t, parts, k + 1, parts[k].hi, vs)
  {
  }

  lemma {:induction false} ReadsBackPacks(t: Structs.ActionTable, s: Ser, vs: seq<Value>)
    requires ReadsBack(t, s, vs)
    ensures SerPack(s, vs).Ok?
  {
  }

  lemma {:induction false} ReadsBackAt(t: Structs.ActionTable, s: Ser, vs: seq<Value>, bs: seq<byte>, start: nat)
    requires ReadsBack(t, s, vs)
    requires Slice(bs, start, start + |SerPack(s, vs).value|) == SerPack(s, vs).value
    ensures ChildUnpack(t, s, bs, start) == Ok(Unpacked(vs, |SerPack(s, vs).value|))
  {
  }

  /** Child `k` packs its slice, and the rest of the children follow. */
  lemma {:induction false} PackPartsStep(parts: seq<Part>, k: nat, vs: seq<Value>, x: seq<byte>, y: seq<byte>)
    requires k < |parts|
    requires SerPack(parts[k].ser, Slice(vs, parts[k].lo, parts[k].hi)) == Ok(x)
    requires PackParts(parts, k + 1, vs) == Ok(y)
    ensures PackParts(parts, k, vs) == Ok(x + y)
  {
  }

  /** A child that reads back its piece, followed by the rest of the
    * compound reading back the remaining values. */
  lemma {:induction false} UnpackPartsStep(t: Structs.ActionTable, parts: seq<Part>, k: nat, bs: seq<byte>, start: nat,
                                          piece: seq<Value>, size: nat, rest: seq<Value>, end: nat)
    requires k < |parts|
    requires ChildUnpack(t, parts[k].ser, bs, start) == Ok(Unpacked(piece, size))
    requires UnpackParts(t, parts, k + 1, bs, start + size) == Ok(Unpacked(rest, end))
    ensures UnpackParts(t, parts, k, bs, start) == Ok(Unpacked(piece + rest, end))
  {
  }

  /** What the compound packs, it unpacks back, consuming exactly the bytes
    * it wrote, when its slices cut the values into consecutive pieces that
    * each child reads back. */
  lemma {:induction false} SlicedRoundTrip(t: Structs.ActionTable, parts: seq<Part>, vs: seq<Value>)
    requires Covers(t, parts, 0, 0, vs)
    ensures PackParts(parts, 0, vs).Ok?
    ensures var d := PackParts(parts, 0, vs).value;
      UnpackParts(t, parts, 0, d, 0) == Ok(Unpacked(vs, |d|))
  {
    hide *;
    RoundTripFrom(t, parts, 0, 0, vs, [], 0);
    var d := PackParts(parts, 0, vs).value;
    RoundTripFrom(t, parts, 0, 0, vs, d, 0);
    SliceIsSubsequence(d, 0, |d|);
    assert d[0..|d|] == d;
    assert vs[0..] == vs;
  }

  /** The same bytes, placed anywhere in a larger buffer, are read back by
    * `unpack_from` at their offset. */
  lemma {:induction false} SlicedRoundTripAt(t: Structs.ActionTable, parts: seq<Part>, vs: seq<Value>, pre: seq<byte>, post: seq<byte>)
    requires Covers(t, parts, 0, 0, vs) && OffsetConsistentParts(parts)
    ensures PackParts(parts, 0, vs).Ok?
    ensures var d := PackParts(parts, 0, vs).value;
      UnpackFromParts(t, parts, 0, pre + d + post, |pre|, 0) == Ok(Unpacked(vs, |d|))
  {
    hide *;
    RoundTripFrom(t, parts, 0, 0, vs, [], 0);
    var d := PackParts(parts, 0, vs).value;
    RoundTripFrom(t, parts, 0, 0, vs, d + post, 0);
    UnpackFromAgrees(t, parts, pre + d + post, |pre|);
    assert pre + d + post == pre + (d + post);
    DropPrefix(pre, d + post);
    SliceAppend(d, post, 0, |d|);
    SliceIsSubsequence(d, 0, |d|);
    assert d[0..|d|] == d;
    assert vs[0..] == vs;
  }

  // ---- the object ----

  /** The bytes still to come after `out`, or the failure. */
  function Prefixed(out: seq<byte>, r: Result<seq<byte>>): Result<seq<byte>>
  {
    if r.Err? then r else Ok(out + r.value)
  }

  lemma {:induction false} PrefixedStart(r: Result<seq<byte>>)
    ensures Prefixed([], r) == r
  {
    assert r.Ok? ==> [] + r.value == r.value;
  }

  lemma {:induction false} PrefixedEnd(parts: seq<Part>, k: nat, vs: seq<Value>, out: seq<byte>)
    requires k >= |parts|
    ensures Prefixed(out, PackParts(parts, k, vs)) == Ok(out)
  {
    assert out + [] == out;
  }

  /** A child that fails to pack is the failure of the whole packing. */
  lemma {:induction false} PrefixedHeadErr(parts: seq<Part>, k: nat, vs: seq<Value>, out: seq<byte>)
    requires k < |parts|
    requires SerPack(parts[k].ser, Slice(vs, parts[k].lo, parts[k].hi)).Err?
    ensures Prefixed(out, PackParts(parts, k, vs)) == SerPack(parts[k].ser, Slice(vs, parts[k].lo, parts[k].hi))
  {
  }

  /** One more child packed: its bytes join those before it. */
  lemma {:induction false} PrefixedStep(parts: seq<Part>, k: nat, vs: seq<Value>, out: seq<byte>)
    requires k < |parts|
    requires SerPack(parts[k].ser, Slice(vs, parts[k].lo, parts[k].hi)).Ok?
    ensures var head := SerPack(parts[k].ser, Slice(vs, parts[k].lo, parts[k].hi)).value;
      Prefixed(out, PackParts(parts, k, vs)) == Prefixed(out + head, PackParts(parts, k + 1, vs))
      && (PackParts(parts, k, vs).Ok? ==> |PackParts(parts, k, vs).value| >= |head|)
  {
    var head := SerPack(parts[k].ser, Slice(vs, parts[k].lo, parts[k].hi)).value;
    var rest := PackParts(parts, k + 1, vs);
    assert rest.Ok? ==> out + (head + rest.value) == out + head + rest.value;
  }

  /** The values still to come after `vals`, or the failure. */
  function Joined(vals: seq<Value>, r: Result<Unpacked>): Result<Unpacked>
  {
    if r.Err? then r else Ok(Unpacked(vals + r.value.values, r.value.size))
  }

  /** One step of the `unpack` loop: child `k` fails the whole read, or its
    * values join those read before it. */
  lemma {:induction false} JoinedStart(r: Result<Unpacked>)
    ensures Joined([], r) == r
  {
    assert r.Ok? ==> [] + r.value.values == r.value.values;
  }

  lemma {:induction false} JoinedEnd(t: Structs.ActionTable, parts: seq<Part>, k: nat, bs: seq<byte>, start: nat,
                                     vals: seq<Value>)
    requires k >= |parts|
    ensures Joined(vals, UnpackParts(t, parts, k, bs, start)) == Ok(Unpacked(vals, start))
  {
    assert vals + [] == vals;
  }

  lemma {:induction false} JoinedFromEnd(t: Structs.ActionTable, parts: seq<Part>, k: nat, bs: seq<byte>, off: nat,
                                         size: nat, vals: seq<Value>)
    requires k >= |parts|
    ensures Joined(vals, UnpackFromParts(t, parts, k, bs, off, size)) == Ok(Unpacked(vals, size))
  {
    assert vals + [] == vals;
  }

  lemma {:induction false} JoinedStep(t: Structs.ActionTable, parts: seq<Part>, k: nat, bs: seq<byte>, start: nat,
                                      vals: seq<Value>)
    requires k < |parts|
    ensures var head := ChildUnpack(t, parts[k].ser, bs, start);
      (head.Err? ==> Joined(vals, UnpackParts(t, parts, k, bs, start)) == Err(head.error))
      && (head.Ok? ==>
            (Joined(vals, UnpackParts(t, parts, k, bs, start))
             == Joined(vals + head.value.values, UnpackParts(t, parts, k + 1, bs, start + head.value.size))))
  {
    var head := ChildUnpack(t, parts[k].ser, bs, start);
    if head.Ok? {
      var rest := UnpackParts(t, parts, k + 1, bs, start + head.value.size);
      assert rest.Ok? ==> vals + (head.value.values + rest.value.values) == vals + head.value.values + rest.value.values;
    }
  }

  /** The same for the `unpack_from` loop. */
  lemma {:induction false} JoinedFromStep(t: Structs.ActionTable, parts: seq<Part>, k: nat, bs: seq<byte>, off: nat,
                                          size: nat, vals: seq<Value>)
    requires k < |parts|
    ensures var head := ChildUnpackFrom(t, parts[k].ser, bs, off + size);
      (head.Err? ==> Joined(vals, UnpackFromParts(t, parts, k, bs, off, size)) == Err(head.error))
      && (head.Ok? ==>
            (Joined(vals, UnpackFromParts(t, parts, k, bs, off, size))
             == Joined(vals + head.value.values, UnpackFromParts(t, parts, k + 1, bs, off, size + head.value.size))))
  {
    var head := ChildUnpackFrom(t, parts[k].ser, bs, off + size);
    if head.Ok? {
      var rest := UnpackFromParts(t, parts, k + 1, bs, off, size + head.value.size);
      assert rest.Ok? ==> vals + (head.value.values + rest.value.values) == vals + head.value.values + rest.value.values;
    }
  }

  /** One child's `pack_into`: its bytes written at `pos`. */
  method Write(buffer: array<byte>, pos: nat, d: seq<byte>)
    requires pos + |d| <= buffer.Length
    modifies buffer
    ensures buffer[..] == Overwrite(old(buffer[..]), pos, d)
  {
    var j := 0;
    while j < |d|
      invariant 0 <= j <= |d|
      invariant forall i :: 0 <= i < buffer.Length ==>
        buffer[i] == if pos <= i < pos + j then d[i - pos] else old(buffer[i])
    {
      buffer[pos + j] := d[j];
      j := j + 1;
    }
    OverwriteAt(old(buffer[..]), pos, d);
    assert buffer[..] == Overwrite(old(buffer[..]), pos, d);
  }

  /** A child whose bytes would end past the buffer stops `pack_into`:
    * the whole packing, if it succeeds, would end past it too. */
  lemma {:induction false} PartTooLong(parts: seq<Part>, k: nat, vs: seq<Value>, out: seq<byte>, offset: nat, length: nat)
    requires k < |parts|
    requires PackParts(parts, 0, vs) == Prefixed(out, PackParts(parts, k, vs))
    requires SerPack(parts[k].ser, Slice(vs, parts[k].lo, parts[k].hi)).Ok?
    requires offset + |out| + |SerPack(parts[k].ser, Slice(vs, parts[k].lo, parts[k].hi)).value| > length
    ensures PackParts(parts, 0, vs).Ok? ==> offset + |PackParts(parts, 0, vs).value| > length
  {
    PrefixedStep(parts, k, vs, out);
  }

  /** The loop of `pack_into` (base_types.py:233-238): child `k` writes at
    * `offset` plus the earlier children's sizes, and a child that does not
    * fit in the buffer fails; `n` is the number of bytes written. */
  method WriteParts(parts: seq<Part>, buffer: array<byte>, offset: nat, values: seq<Value>) returns (r: Result<()>, n: nat)
    modifies buffer
    ensures var spec := PackParts(parts, 0, values);
      r.Ok? <==> spec.Ok? && (parts == [] || offset + |spec.value| <= buffer.Length)
    ensures r.Ok? ==> buffer[..] == Written(old(buffer[..]), offset, PackParts(parts, 0, values).value)
    ensures r.Ok? ==> n == |PackParts(parts, 0, values).value|
  {
    ghost var before := buffer[..];
    var out: seq<byte> := [];
    var k := 0;
    ghost var spec := PackParts(parts, 0, values);
    assert spec.Ok? ==> [] + spec.value == spec.value;
    OverwriteEmpty(before, offset);
    while k < |parts|
      invariant k <= |parts|
      invariant PackParts(parts, 0, values) == Prefixed(out, PackParts(parts, k, values))
      invariant k == 0 ==> out == []
      invariant k > 0 ==> offset + |out| <= buffer.Length
      invariant buffer[..] == Written(before, offset, out)
      decreases |parts| - k
    {
      var p := parts[k];
      var head := SerPack(p.ser, Slice(values, p.lo, p.hi));
      if head.Err? {
        assert PackParts(parts, k, values) == head;
        return Err(head.error), 0;
      }
      if offset + |out| + |head.value| > buffer.Length {
        PartTooLong(parts, k, values, out, offset, buffer.Length);
        return Err(StructError), 0;
      }
      PrefixedStep(parts, k, values, out);
      Write(buffer, offset + |out|, head.value);
      WrittenStep(before, offset, out, head.value);
      out := out + head.value;
      k := k + 1;
    }
    assert out + [] == out;
    return Ok(()), |out|;
  }

  /** `CompoundSerializer` of base_types.py (211-270): `size` starts at 0
    * and is set by `pack_into`, `unpack` and `unpack_from`. */
  class SlicedCompoundSerializer {
    const table: Structs.ActionTable
    const serializers: seq<Part>
    var size: nat

    constructor (table: Structs.ActionTable, serializers: seq<Part>)
      ensures this.table == table && this.serializers == serializers && size == 0
    {
      this.table := table;
      this.serializers := serializers;
      size := 0;
    }

    method Pack(values: seq<Value>) returns (r: Result<seq<byte>>)
      ensures r == PackParts(serializers, 0, values)
    {
      var out: seq<byte> := [];
      var k := 0;
      hide *;
      ghost var spec := PackParts(serializers, 0, values);
      PrefixedStart(spec);
      while k < |serializers|
        invariant k <= |serializers|
        invariant PackParts(serializers, 0, values) == Prefixed(out, PackParts(serializers, k, values))
        decreases |serializers| - k
      {
        var p := serializers[k];
        var head := SerPack(p.ser, Slice(values, p.lo, p.hi));
        if head.Err? {
          PrefixedHeadErr(serializers, k, values, out);
          return head;
        }
        PrefixedStep(serializers, k, values, out);
        out := out + head.value;
        k := k + 1;
      }
      PrefixedEnd(serializers, k, values, out);
      return Ok(out);
    }

    /** `pack_into` (base_types.py:233-238): child `k` writes at `offset`
      * plus the earlier children's sizes; a child that does not fit in the
      * buffer fails. */
    method PackInto(buffer: array<byte>, offset: nat, values: seq<Value>) returns (r: Result<()>)
      modifies this, buffer
      ensures var spec := PackParts(serializers, 0, values);
        r.Ok? <==> spec.Ok? && (serializers == [] || offset + |spec.value| <= buffer.Length)
      ensures r.Ok? ==> buffer[..] == Written(old(buffer[..]), offset, PackParts(serializers, 0, values).value)
      ensures r.Ok? ==> size == |PackParts(serializers, 0, values).value|
      ensures r.Err? ==> size == old(size)
    {
      var n;
      r, n := WriteParts(serializers, buffer, offset, values);
      if r.Ok? {
        size := n;
      }
    }

    method Unpack(buffer: seq<byte>) returns (r: Result<seq<Value>>)
      modifies this
      ensures var spec := UnpackParts(table, serializers, 0, buffer, 0);
        (spec.Err? ==> r == Err(spec.error) && size == old(size))
        && (spec.Ok? ==> r == Ok(spec.value.values) && size == spec.value.size)
    {
      var values: seq<Value> := [];
      var start: nat := 0;
      var k := 0;
      hide *;
      ghost var spec := UnpackParts(table, serializers, 0, buffer, 0);
      JoinedStart(spec);
      while k < |serializers|
        invariant k <= |serializers|
        invariant UnpackParts(table, serializers, 0, buffer, 0) == Joined(values, UnpackParts(table, serializers, k, buffer, start))
        invariant size == old(size)
        decreases |serializers| - k
      {
        var head := ChildUnpack(table, serializers[k].ser, buffer, start);
        JoinedStep(table, serializers, k, buffer, start, values);
        if head.Err? {
          return Err(head.error);
        }
        values := values + head.value.values;
        start := start + head.value.size;
        k := k + 1;
      }
      JoinedEnd(table, serializers, k, buffer, start, values);
      size := start;
      return Ok(values);
    }

    method UnpackFrom(buffer: seq<byte>, offset: nat) returns (r: Result<seq<Value>>)
      modifies this
      ensures var spec := UnpackFromParts(table, serializers, 0, buffer, offset, 0);
        (spec.Err? ==> r == Err(spec.error) && size == old(size))
        && (spec.Ok? ==> r == Ok(spec.value.values) && size == spec.value.size)
    {
      var values: seq<Value> := [];
      var total: nat := 0;
      var k := 0;
      hide *;
      ghost var spec := UnpackFromParts(table, serializers, 0, buffer, offset, 0);
      JoinedStart(spec);
      while k < |serializers|
        invariant k <= |serializers|
        invariant UnpackFromParts(table, serializers, 0, buffer, offset, 0)
          == Joined(values, UnpackFromParts(table, serializers, k, buffer, offset, total))
        invariant size == old(size)
        decreases |serializers| - k
      {
        var head := ChildUnpackFrom(table, serializers[k].ser, buffer, offset + total);
        JoinedFromStep(table, serializers, k, buffer, offset, total, values);
        if head.Err? {
          return Err(head.error);
        }
        values := values + head.value.values;
        total := total + head.value.size;
        k := k + 1;
      }
      JoinedFromEnd(table, serializers, k, buffer, offset, total, values);
      size := total;
      return Ok(values);
    }
  }
}
