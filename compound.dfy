/** `CompoundSerializer` and `_SpecializedCompoundSerializer` of
  * structured/serializers/api.py: how a chain of serializers shares out the
  * values, concatenates the bytes and accumulates offsets. */
module Compounds {
  import opened Outcomes
  import opened Values
  import opened Codecs

  /** `num_values` of the children from `k` on. */
  function SumFrom(cs: seq<Codec>, k: nat): nat
    decreases |cs| - k
  {
    if k >= |cs| then 0 else cs[k].numValues + SumFrom(cs, k + 1)
  }

  /** `num_values` of a compound (api.py:238): the sum over its children. */
  function SumNumValues(cs: seq<Codec>): nat
  {
    SumFrom(cs, 0)
  }

  /** First one result, then the other; the first error wins. */
  function ThenPack(a: Result<Packed>, b: Result<Packed>): (r: Result<Packed>)
    ensures r.Ok? <==> a.Ok? && b.Ok?
    ensures r.Ok? ==> r.value == Packed(a.value.data + b.value.data, a.value.size + b.value.size)
  {
    if a.Err? then a
    else if b.Err? then b
    else Ok(Packed(a.value.data + b.value.data, a.value.size + b.value.size))
  }

  function ThenUnpack(a: Result<Unpacked>, b: Result<Unpacked>): (r: Result<Unpacked>)
    ensures r.Ok? <==> a.Ok? && b.Ok?
    ensures r.Ok? ==> r.value == Unpacked(a.value.values + b.value.values, a.value.size + b.value.size)
  {
    if a.Err? then a
    else if b.Err? then b
    else Ok(Unpacked(a.value.values + b.value.values, a.value.size + b.value.size))
  }

  lemma {:induction false} ThenPackAssoc(a: Result<Packed>, b: Result<Packed>, c: Result<Packed>)
    ensures ThenPack(ThenPack(a, b), c) == ThenPack(a, ThenPack(b, c))
  {
    if a.Ok? && b.Ok? && c.Ok? {
      assert a.value.data + b.value.data + c.value.data == a.value.data + (b.value.data + c.value.data);
    }
  }

  lemma {:induction false} ThenPackUnit(b: Result<Packed>)
    ensures ThenPack(Ok(Packed([], 0)), b) == b
  {
    if b.Ok? {
      assert [] + b.value.data == b.value.data;
    }
  }

  /** Moving a packed piece from the pending side to the accumulated side. */
  lemma {:induction false} ThenPackShift(whole: Result<Packed>, acc: Packed, tail: Result<Packed>, piece: Result<Packed>,
                      rest: Result<Packed>, acc': Packed)
    requires whole == ThenPack(Ok(acc), tail) && tail == ThenPack(piece, rest)
    requires piece.Ok? && acc' == Packed(acc.data + piece.value.data, acc.size + piece.value.size)
    ensures whole == ThenPack(Ok(acc'), rest)
  {
    ThenPackAssoc(Ok(acc), piece, rest);
  }

  lemma {:induction false} ThenUnpackShift(whole: Result<Unpacked>, acc: Unpacked, tail: Result<Unpacked>, piece: Result<Unpacked>,
                        rest: Result<Unpacked>, acc': Unpacked)
    requires whole == ThenUnpack(Ok(acc), tail) && tail == ThenUnpack(piece, rest)
    requires piece.Ok? && acc' == Unpacked(acc.values + piece.value.values, acc.size + piece.value.size)
    ensures whole == ThenUnpack(Ok(acc'), rest)
  {
    ThenUnpackAssoc(Ok(acc), piece, rest);
  }

  lemma {:induction false} ThenUnpackAssoc(a: Result<Unpacked>, b: Result<Unpacked>, c: Result<Unpacked>)
    ensures ThenUnpack(ThenUnpack(a, b), c) == ThenUnpack(a, ThenUnpack(b, c))
  {
    if a.Ok? && b.Ok? && c.Ok? {
      assert a.value.values + b.value.values + c.value.values == a.value.values + (b.value.values + c.value.values);
    }
  }

  lemma {:induction false} ThenUnpackUnit(b: Result<Unpacked>)
    ensures ThenUnpack(Ok(Unpacked([], 0)), b) == b
  {
    if b.Ok? {
      assert [] + b.value.values == b.value.values;
    }
  }

  /** The children from `k` on pack the values from index `i` on, as the
    * loop of `_iter_packers` (api.py:266-279) hands them out: child `k`
    * gets `values[i:i + num_values]` and the next child starts past them. */
  function PackFrom(cs: seq<Codec>, k: nat, obj: Value, vs: seq<Value>, i: nat): Result<Packed>
    decreases |cs| - k, 1
  {
    if k >= |cs| then Ok(Packed([], 0)) else PackChild(cs, k, obj, vs, i)
  }

  /** Child `k` packs, then the children after it. */
  function PackChild(cs: seq<Codec>, k: nat, obj: Value, vs: seq<Value>, i: nat): Result<Packed>
    requires k < |cs|
    decreases |cs| - k, 0
  {
    ThenPack(PackWith(cs[k], obj, Slice(vs, i, i + cs[k].numValues)),
      PackFrom(cs, k + 1, obj, vs, i + cs[k].numValues))
  }

  /** `pack` of a compound (api.py:281-286): the children's bytes one after
    * the other; `size` ends as the sum of the children's sizes. */
  function CompoundPack(cs: seq<Codec>, obj: Value, vs: seq<Value>): Result<Packed>
  {
    PackFrom(cs, 0, obj, vs, 0)
  }

  /** The children from `k` on unpack the buffer from position `pos` on, as
    * `_iter_unpackers` (api.py:288-299) does: each child reads
    * `buffer[pos:]` and the next one starts after the bytes it consumed. */
  function UnpackAt(cs: seq<Codec>, k: nat, obj: Value, bs: seq<byte>, pos: nat): Result<Unpacked>
    decreases |cs| - k, 1
  {
    if k >= |cs| then Ok(Unpacked([], 0)) else UnpackChild(cs, k, obj, bs, pos)
  }

  /** Child `k` unpacks, then, unless it failed, the children after it. */
  function UnpackChild(cs: seq<Codec>, k: nat, obj: Value, bs: seq<byte>, pos: nat): Result<Unpacked>
    requires k < |cs|
    decreases |cs| - k, 0
  {
    var head := UnpackWith(cs[k], obj, Drop(bs, pos));
    if head.Err? then head
    else ThenUnpack(head, UnpackAt(cs, k + 1, obj, bs, pos + head.value.size))
  }

  /** `unpack` of a compound (api.py:301-313). */
  function CompoundUnpack(cs: seq<Codec>, obj: Value, bs: seq<byte>): Result<Unpacked>
  {
    UnpackAt(cs, 0, obj, bs, 0)
  }

  /** The `unpack_from` counterpart of `UnpackAt`: child `k` reads at `pos`. */
  function UnpackFromAt(cs: seq<Codec>, k: nat, obj: Value, bs: seq<byte>, pos: nat): Result<Unpacked>
    decreases |cs| - k, 1
  {
    if k >= |cs| then Ok(Unpacked([], 0)) else UnpackFromChild(cs, k, obj, bs, pos)
  }

  function UnpackFromChild(cs: seq<Codec>, k: nat, obj: Value, bs: seq<byte>, pos: nat): Result<Unpacked>
    requires k < |cs|
    decreases |cs| - k, 0
  {
    var head := UnpackFromWith(cs[k], obj, bs, pos);
    if head.Err? then head
    else ThenUnpack(head, UnpackFromAt(cs, k + 1, obj, bs, pos + head.value.size))
  }

  /** `unpack_from` of a compound (api.py:315-317): child `k` reads at the
    * offset plus the earlier children's sizes. */
  function CompoundUnpackFrom(cs: seq<Codec>, obj: Value, bs: seq<byte>, off: nat): Result<Unpacked>
  {
    UnpackFromAt(cs, 0, obj, bs, off)
  }

  function CompoundCodec(cs: seq<Codec>): Codec
  {
    Codec(SumNumValues(cs),
      (obj: Value, vs: seq<Value>) => CompoundPack(cs, obj, vs),
      (obj: Value, bs: seq<byte>) => CompoundUnpack(cs, obj, bs),
      (obj: Value, bs: seq<byte>, off: nat) => CompoundUnpackFrom(cs, obj, bs, off))
  }

  // ---- compounds of compounds: the laws `_add_impl` relies on ----

  /** The number of values of `a + b` is that of `a` plus that of `b`. */
  lemma {:induction false} SumFromAppend(a: seq<Codec>, b: seq<Codec>, k: nat)
    requires k <= |a|
    ensures SumFrom(a + b, k) == SumFrom(a, k) + SumNumValues(b)
    decreases |a| - k
  {
    if k == |a| {
      SumFromSkip(a, b, 0);
    } else {
      assert (a + b)[k] == a[k];
      SumFromAppend(a, b, k + 1);
    }
  }

  lemma {:induction false} SumFromSkip(a: seq<Codec>, b: seq<Codec>, j: nat)
    ensures SumFrom(a + b, |a| + j) == SumFrom(b, j)
    decreases |b| - j
  {
    if j < |b| {
      assert (a + b)[|a| + j] == b[j];
      SumFromSkip(a, b, j + 1);
    }
  }

  lemma {:induction false} PackFromSkip(a: seq<Codec>, b: seq<Codec>, j: nat, obj: Value, vs: seq<Value>, i: nat)
    ensures PackFrom(a + b, |a| + j, obj, vs, i) == PackFrom(b, j, obj, vs, i)
    decreases |b| - j
  {
    if j < |b| {
      assert (a + b)[|a| + j] == b[j];
      PackFromSkip(a, b, j + 1, obj, vs, i + b[j].numValues);
    }
  }

  /** Starting `i` values further on is packing what is left after
    * dropping them. */
  lemma {:induction false} PackFromShift(cs: seq<Codec>, k: nat, obj: Value, vs: seq<Value>, i: nat, j: nat)
    ensures PackFrom(cs, k, obj, vs, j + i) == PackFrom(cs, k, obj, Drop(vs, j), i)
    decreases |cs| - k
  {
    if k < |cs| {
      var n := cs[k].numValues;
      DropDrop(vs, j, i);
      assert Slice(vs, j + i, j + i + n) == Slice(Drop(vs, j), i, i + n);
      PackFromShift(cs, k + 1, obj, vs, i + n, j);
      assert j + i + n == j + (i + n);
    }
  }

  lemma {:induction false} PackFromAppend(a: seq<Codec>, b: seq<Codec>, k: nat, obj: Value, vs: seq<Value>, i: nat)
    requires k <= |a|
    ensures PackFrom(a + b, k, obj, vs, i)
      == ThenPack(PackFrom(a, k, obj, vs, i), PackFrom(b, 0, obj, vs, i + SumFrom(a, k)))
    decreases |a| - k
  {
    if k == |a| {
      PackFromSkip(a, b, 0, obj, vs, i);
      ThenPackUnit(PackFrom(b, 0, obj, vs, i));
    } else {
      var n := a[k].numValues;
      var j := i + SumFrom(a, k);
      assert (a + b)[k] == a[k];
      var head := PackWith(a[k], obj, Slice(vs, i, i + n));
      var restA := PackFrom(a, k + 1, obj, vs, i + n);
      var tailB := PackFrom(b, 0, obj, vs, j);
      assert PackFrom(a + b, k, obj, vs, i) == ThenPack(head, PackFrom(a + b, k + 1, obj, vs, i + n));
      PackFromAppend(a, b, k + 1, obj, vs, i + n);
      assert i + n + SumFrom(a, k + 1) == j;
      assert PackFrom(a + b, k + 1, obj, vs, i + n) == ThenPack(restA, tailB);
      assert PackFrom(a, k, obj, vs, i) == ThenPack(head, restA);
      ThenPackAssoc(head, restA, tailB);
    }
  }

  /** A compound whose children are `a` then `b` packs like `a`'s children
    * followed by `b`'s, `b` starting at value `num_values` of `a`. */
  lemma {:induction false} CompoundPackAppend(a: seq<Codec>, b: seq<Codec>, obj: Value, vs: seq<Value>)
    ensures CompoundPack(a + b, obj, vs)
      == ThenPack(CompoundPack(a, obj, vs), CompoundPack(b, obj, Drop(vs, SumNumValues(a))))
  {
    PackFromAppend(a, b, 0, obj, vs, 0);
    PackFromShift(b, 0, obj, vs, 0, SumNumValues(a));
  }

  /** Unpacking `b` after a result `ra` that consumed `ra.size` bytes. */
  function UnpackAfter(ra: Result<Unpacked>, b: seq<Codec>, obj: Value, bs: seq<byte>): Result<Unpacked>
  {
    if ra.Err? then ra else ThenUnpack(ra, CompoundUnpack(b, obj, Drop(bs, ra.value.size)))
  }

  /** `UnpackAfter` for a result read from position `pos`. */
  function UnpackAfterAt(ra: Result<Unpacked>, b: seq<Codec>, obj: Value, bs: seq<byte>, pos: nat): Result<Unpacked>
  {
    if ra.Err? then ra else ThenUnpack(ra, UnpackAt(b, 0, obj, bs, pos + ra.value.size))
  }

  lemma {:induction false} UnpackAtSkip(a: seq<Codec>, b: seq<Codec>, j: nat, obj: Value, bs: seq<byte>, pos: nat)
    ensures UnpackAt(a + b, |a| + j, obj, bs, pos) == UnpackAt(b, j, obj, bs, pos)
    decreases |b| - j
  {
    if j < |b| {
      assert (a + b)[|a| + j] == b[j];
      var head := UnpackWith(b[j], obj, Drop(bs, pos));
      if head.Ok? {
        UnpackAtSkip(a, b, j + 1, obj, bs, pos + head.value.size);
      }
    }
  }

  lemma {:induction false} UnpackAtShift(cs: seq<Codec>, k: nat, obj: Value, bs: seq<byte>, pos: nat, j: nat)
    ensures UnpackAt(cs, k, obj, bs, j + pos) == UnpackAt(cs, k, obj, Drop(bs, j), pos)
    decreases |cs| - k
  {
    if k < |cs| {
      DropDrop(bs, j, pos);
      var head := UnpackWith(cs[k], obj, Drop(bs, j + pos));
      if head.Ok? {
        UnpackAtShift(cs, k + 1, obj, bs, pos + head.value.size, j);
        assert j + pos + head.value.size == j + (pos + head.value.size);
      }
    }
  }

  lemma {:induction false} UnpackAtAppend(a: seq<Codec>, b: seq<Codec>, k: nat, obj: Value, bs: seq<byte>, pos: nat)
    requires k <= |a|
    ensures UnpackAt(a + b, k, obj, bs, pos) == UnpackAfterAt(UnpackAt(a, k, obj, bs, pos), b, obj, bs, pos)
    decreases |a| - k
  {
    if k == |a| {
      UnpackAtSkip(a, b, 0, obj, bs, pos);
      ThenUnpackUnit(UnpackAt(b, 0, obj, bs, pos));
    } else {
      assert (a + b)[k] == a[k];
      var head := UnpackWith(a[k], obj, Drop(bs, pos));
      if head.Ok? {
        var h := head.value.size;
        UnpackAtAppend(a, b, k + 1, obj, bs, pos + h);
        UnpackAppendStep(head, UnpackAt(a, k + 1, obj, bs, pos + h), b, obj, bs, pos);
      }
    }
  }

  lemma {:induction false} UnpackAppendStep(head: Result<Unpacked>, rest: Result<Unpacked>, b: seq<Codec>, obj: Value, bs: seq<byte>, pos: nat)
    requires head.Ok?
    ensures ThenUnpack(head, UnpackAfterAt(rest, b, obj, bs, pos + head.value.size))
      == UnpackAfterAt(ThenUnpack(head, rest), b, obj, bs, pos)
  {
    if rest.Ok? {
      var tail := UnpackAt(b, 0, obj, bs, pos + head.value.size + rest.value.size);
      assert pos + head.value.size + rest.value.size == pos + (head.value.size + rest.value.size);
      ThenUnpackAssoc(head, rest, tail);
    }
  }

  lemma {:induction false} CompoundUnpackAppend(a: seq<Codec>, b: seq<Codec>, obj: Value, bs: seq<byte>)
    ensures CompoundUnpack(a + b, obj, bs) == UnpackAfter(CompoundUnpack(a, obj, bs), b, obj, bs)
  {
    UnpackAtAppend(a, b, 0, obj, bs, 0);
    var ra := CompoundUnpack(a, obj, bs);
    if ra.Ok? {
      UnpackAtShift(b, 0, obj, bs, 0, ra.value.size);
    }
  }

  /** A compound packs a value tuple that is too long by ignoring the extra
    * values: only the first `num_values` are ever handed to a child. */
  lemma {:induction false} PackFromIgnoresExtraValues(cs: seq<Codec>, k: nat, obj: Value, vs: seq<Value>, i: nat, extra: seq<Value>)
    requires i + SumFrom(cs, k) <= |vs|
    ensures PackFrom(cs, k, obj, vs + extra, i) == PackFrom(cs, k, obj, vs, i)
    decreases |cs| - k
  {
    if k < |cs| {
      var n := cs[k].numValues;
      SliceAppend(vs, extra, i, i + n);
      PackFromIgnoresExtraValues(cs, k + 1, obj, vs, i + n, extra);
    }
  }

  lemma {:induction false} CompoundPackIgnoresExtraValues(cs: seq<Codec>, obj: Value, vs: seq<Value>, extra: seq<Value>)
    requires |vs| == SumNumValues(cs)
    ensures CompoundPack(cs, obj, vs + extra) == CompoundPack(cs, obj, vs)
  {
    PackFromIgnoresExtraValues(cs, 0, obj, vs, 0, extra);
  }

  /** `unpack_from(b, off)` agrees with `unpack(b[off:])`. */
  ghost predicate OffsetConsistent(c: Codec)
  {
    forall obj: Value, bs: seq<byte>, off: nat {:trigger c.unpackFrom(obj, bs, off)} ::
      c.unpackFrom(obj, bs, off) == c.unpack(obj, Drop(bs, off))
  }

  lemma {:induction false} UnpackFromAtConsistent(cs: seq<Codec>, k: nat, obj: Value, bs: seq<byte>, pos: nat)
    requires forall c :: c in cs ==> OffsetConsistent(c)
    ensures UnpackFromAt(cs, k, obj, bs, pos) == UnpackAt(cs, k, obj, bs, pos)
    decreases |cs| - k
  {
    if k < |cs| {
      assert cs[k] in cs;
      var head := UnpackFromWith(cs[k], obj, bs, pos);
      assert head == UnpackWith(cs[k], obj, Drop(bs, pos));
      if head.Ok? {
        UnpackFromAtConsistent(cs, k + 1, obj, bs, pos + head.value.size);
      }
    }
  }

  /** When every child's `unpack_from` agrees with its `unpack` of the
    * buffer's tail, so does the compound's: the offsets it passes add up to
    * exactly the tails it would otherwise slice. */
  lemma {:induction false} CompoundOffsetConsistent(cs: seq<Codec>, obj: Value, bs: seq<byte>, off: nat)
    requires forall c :: c in cs ==> OffsetConsistent(c)
    ensures CompoundUnpackFrom(cs, obj, bs, off) == CompoundUnpack(cs, obj, Drop(bs, off))
  {
    UnpackFromAtConsistent(cs, 0, obj, bs, off);
    UnpackAtShift(cs, 0, obj, bs, 0, off);
  }

  /** The compound of two serializers, spelt out: what `x + y` has to match. */
  lemma {:induction false} CompoundPackPair(c1: Codec, c2: Codec, obj: Value, vs: seq<Value>)
    ensures CompoundPack([c1, c2], obj, vs)
      == ThenPack(PackWith(c1, obj, Slice(vs, 0, c1.numValues)),
                  PackWith(c2, obj, Slice(vs, c1.numValues, c1.numValues + c2.numValues)))
  {
    var cs := [c1, c2];
    var n1 := c1.numValues;
    assert PackFrom(cs, 0, obj, vs, 0) == PackChild(cs, 0, obj, vs, 0);
    assert PackFrom(cs, 1, obj, vs, n1) == PackChild(cs, 1, obj, vs, n1);
    assert PackFrom(cs, 2, obj, vs, n1 + c2.numValues) == Ok(Packed([], 0));
    ThenPackUnitRight(PackWith(c2, obj, Slice(vs, n1, n1 + c2.numValues)));
  }

  lemma {:induction false} CompoundUnpackPair(c1: Codec, c2: Codec, obj: Value, bs: seq<byte>)
    ensures CompoundUnpack([c1, c2], obj, bs)
      == var h := UnpackWith(c1, obj, bs);
         if h.Err? then h else ThenUnpack(h, UnpackWith(c2, obj, Drop(bs, h.value.size)))
  {
    var cs := [c1, c2];
    assert UnpackAt(cs, 0, obj, bs, 0) == UnpackChild(cs, 0, obj, bs, 0);
    var h := UnpackWith(c1, obj, bs);
    if h.Ok? {
      var p := h.value.size;
      assert UnpackAt(cs, 1, obj, bs, p) == UnpackChild(cs, 1, obj, bs, p);
      var t := UnpackWith(c2, obj, Drop(bs, p));
      if t.Ok? {
        assert UnpackAt(cs, 2, obj, bs, p + t.value.size) == Ok(Unpacked([], 0));
        ThenUnpackUnitRight(t);
      }
    }
  }

  lemma {:induction false} CompoundUnpackFromPair(c1: Codec, c2: Codec, obj: Value, bs: seq<byte>, off: nat)
    ensures CompoundUnpackFrom([c1, c2], obj, bs, off)
      == var h := UnpackFromWith(c1, obj, bs, off);
         if h.Err? then h else ThenUnpack(h, UnpackFromWith(c2, obj, bs, off + h.value.size))
  {
    var cs := [c1, c2];
    assert UnpackFromAt(cs, 0, obj, bs, off) == UnpackFromChild(cs, 0, obj, bs, off);
    var h := UnpackFromWith(c1, obj, bs, off);
    if h.Ok? {
      var p := off + h.value.size;
      assert UnpackFromAt(cs, 1, obj, bs, p) == UnpackFromChild(cs, 1, obj, bs, p);
      var t := UnpackFromWith(c2, obj, bs, p);
      if t.Ok? {
        assert UnpackFromAt(cs, 2, obj, bs, p + t.value.size) == Ok(Unpacked([], 0));
        ThenUnpackUnitRight(t);
      }
    }
  }

  lemma {:induction false} ThenPackUnitRight(a: Result<Packed>)
    ensures ThenPack(a, Ok(Packed([], 0))) == a
  {
    if a.Ok? {
      assert a.value.data + [] == a.value.data;
    }
  }

  lemma {:induction false} ThenUnpackUnitRight(a: Result<Unpacked>)
    ensures ThenUnpack(a, Ok(Unpacked([], 0))) == a
  {
    if a.Ok? {
      assert a.value.values + [] == a.value.values;
    }
  }

  // ---- the loops ----

  /** The invariant of the packing loop: after `k` children, which took the
    * first `i` values, `out` of length `size` has been produced and the rest
    * of the children still have to pack the values from `i` on. */
  predicate PackInv(cs: seq<Codec>, obj: Value, vs: seq<Value>, k: nat, i: nat, out: seq<byte>, size: nat)
  {
    CompoundPack(cs, obj, vs) == ThenPack(Ok(Packed(out, size)), PackFrom(cs, k, obj, vs, i))
  }

  lemma {:induction false} PackLoopEnter(cs: seq<Codec>, obj: Value, vs: seq<Value>)
    ensures PackInv(cs, obj, vs, 0, 0, [], 0)
  {
    ThenPackUnit(CompoundPack(cs, obj, vs));
  }

  /** One turn of the packing loop keeps its invariant ... */
  lemma {:induction false} PackLoopStep(cs: seq<Codec>, obj: Value, vs: seq<Value>, k: nat, i: nat, out: seq<byte>, size: nat,
                     packed: Result<Packed>, k': nat, i': nat, out': seq<byte>, size': nat)
    requires k < |cs| && PackInv(cs, obj, vs, k, i, out, size)
    requires packed == PackWith(cs[k], obj, Slice(vs, i, i + cs[k].numValues)) && packed.Ok?
    requires k' == k + 1 && i' == i + cs[k].numValues
    requires out' == out + packed.value.data && size' == size + packed.value.size
    ensures PackInv(cs, obj, vs, k', i', out', size')
  {
    assert PackFrom(cs, k, obj, vs, i) == PackChild(cs, k, obj, vs, i);
    ThenPackShift(CompoundPack(cs, obj, vs), Packed(out, size), PackFrom(cs, k, obj, vs, i), packed,
      PackFrom(cs, k', obj, vs, i'), Packed(out', size'));
  }

  /** ... and a child's error is the error of the whole. */
  lemma {:induction false} PackLoopErr(cs: seq<Codec>, obj: Value, vs: seq<Value>, k: nat, i: nat, out: seq<byte>, size: nat,
                    packed: Result<Packed>)
    requires k < |cs| && PackInv(cs, obj, vs, k, i, out, size)
    requires packed == PackWith(cs[k], obj, Slice(vs, i, i + cs[k].numValues)) && packed.Err?
    ensures CompoundPack(cs, obj, vs) == Err(packed.error)
  {
    assert PackFrom(cs, k, obj, vs, i) == PackChild(cs, k, obj, vs, i);
  }

  lemma {:induction false} PackLoopExit(cs: seq<Codec>, obj: Value, vs: seq<Value>, i: nat, out: seq<byte>, size: nat)
    requires PackInv(cs, obj, vs, |cs|, i, out, size)
    ensures CompoundPack(cs, obj, vs) == Ok(Packed(out, size))
  {
    ConcatEmpty(out);
  }

  /** The invariant of the unpacking loop: after `k` children, `values` were
    * read from the first `size` bytes of the buffer. */
  predicate UnpackInv(cs: seq<Codec>, obj: Value, bs: seq<byte>, k: nat, values: seq<Value>, size: nat)
  {
    CompoundUnpack(cs, obj, bs) == ThenUnpack(Ok(Unpacked(values, size)), UnpackAt(cs, k, obj, bs, size))
  }

  lemma {:induction false} UnpackLoopEnter(cs: seq<Codec>, obj: Value, bs: seq<byte>)
    ensures UnpackInv(cs, obj, bs, 0, [], 0)
  {
    ThenUnpackUnit(CompoundUnpack(cs, obj, bs));
  }

  lemma {:induction false} UnpackLoopStep(cs: seq<Codec>, obj: Value, bs: seq<byte>, k: nat, values: seq<Value>, size: nat,
                       unpacked: Result<Unpacked>, k': nat, values': seq<Value>, size': nat)
    requires k < |cs| && UnpackInv(cs, obj, bs, k, values, size)
    requires unpacked == UnpackWith(cs[k], obj, Drop(bs, size)) && unpacked.Ok?
    requires k' == k + 1 && values' == values + unpacked.value.values && size' == size + unpacked.value.size
    ensures UnpackInv(cs, obj, bs, k', values', size')
  {
    assert UnpackAt(cs, k, obj, bs, size) == UnpackChild(cs, k, obj, bs, size);
    ThenUnpackShift(CompoundUnpack(cs, obj, bs), Unpacked(values, size), UnpackAt(cs, k, obj, bs, size), unpacked,
      UnpackAt(cs, k', obj, bs, size'), Unpacked(values', size'));
  }

  lemma {:induction false} UnpackLoopErr(cs: seq<Codec>, obj: Value, bs: seq<byte>, k: nat, values: seq<Value>, size: nat,
                      unpacked: Result<Unpacked>)
    requires k < |cs| && UnpackInv(cs, obj, bs, k, values, size)
    requires unpacked == UnpackWith(cs[k], obj, Drop(bs, size)) && unpacked.Err?
    ensures CompoundUnpack(cs, obj, bs) == Err(unpacked.error)
  {
    assert UnpackAt(cs, k, obj, bs, size) == UnpackChild(cs, k, obj, bs, size);
  }

  lemma {:induction false} UnpackLoopExit(cs: seq<Codec>, obj: Value, bs: seq<byte>, values: seq<Value>, size: nat)
    requires UnpackInv(cs, obj, bs, |cs|, values, size)
    ensures CompoundUnpack(cs, obj, bs) == Ok(Unpacked(values, size))
  {
    ConcatEmpty(values);
  }

  /** The invariant of the `unpack_from` loop: after `k` children, `values`
    * were read from the `size` bytes at `off`. */
  predicate UnpackFromInv(cs: seq<Codec>, obj: Value, bs: seq<byte>, off: nat, k: nat, values: seq<Value>, size: nat)
  {
    CompoundUnpackFrom(cs, obj, bs, off)
      == ThenUnpack(Ok(Unpacked(values, size)), UnpackFromAt(cs, k, obj, bs, off + size))
  }

  lemma {:induction false} UnpackFromLoopEnter(cs: seq<Codec>, obj: Value, bs: seq<byte>, off: nat)
    ensures UnpackFromInv(cs, obj, bs, off, 0, [], 0)
  {
    ThenUnpackUnit(CompoundUnpackFrom(cs, obj, bs, off));
  }

  lemma {:induction false} UnpackFromLoopStep(cs: seq<Codec>, obj: Value, bs: seq<byte>, off: nat, k: nat, values: seq<Value>, size: nat,
                           unpacked: Result<Unpacked>, k': nat, values': seq<Value>, size': nat)
    requires k < |cs| && UnpackFromInv(cs, obj, bs, off, k, values, size)
    requires unpacked == UnpackFromWith(cs[k], obj, bs, off + size) && unpacked.Ok?
    requires k' == k + 1 && values' == values + unpacked.value.values && size' == size + unpacked.value.size
    ensures UnpackFromInv(cs, obj, bs, off, k', values', size')
  {
    assert UnpackFromAt(cs, k, obj, bs, off + size) == UnpackFromChild(cs, k, obj, bs, off + size);
    assert off + size' == off + size + unpacked.value.size;
    ThenUnpackShift(CompoundUnpackFrom(cs, obj, bs, off), Unpacked(values, size), UnpackFromAt(cs, k, obj, bs, off + size),
      unpacked, UnpackFromAt(cs, k', obj, bs, off + size'), Unpacked(values', size'));
  }

  lemma {:induction false} UnpackFromLoopErr(cs: seq<Codec>, obj: Value, bs: seq<byte>, off: nat, k: nat, values: seq<Value>, size: nat,
                          unpacked: Result<Unpacked>)
    requires k < |cs| && UnpackFromInv(cs, obj, bs, off, k, values, size)
    requires unpacked == UnpackFromWith(cs[k], obj, bs, off + size) && unpacked.Err?
    ensures CompoundUnpackFrom(cs, obj, bs, off) == Err(unpacked.error)
  {
    assert UnpackFromAt(cs, k, obj, bs, off + size) == UnpackFromChild(cs, k, obj, bs, off + size);
  }

  lemma {:induction false} UnpackFromLoopExit(cs: seq<Codec>, obj: Value, bs: seq<byte>, off: nat, values: seq<Value>, size: nat)
    requires UnpackFromInv(cs, obj, bs, off, |cs|, values, size)
    ensures CompoundUnpackFrom(cs, obj, bs, off) == Ok(Unpacked(values, size))
  {
    ConcatEmpty(values);
  }

  /** The loop of `_iter_packers`/`pack` over `children`, handing each the
    * given object: shared by both compound classes. */
  method PackChildren(children: seq<Codec>, obj: Value, values: seq<Value>) returns (r: Result<Packed>)
    ensures r == CompoundPack(children, obj, values)
  {
    var out: seq<byte> := [];
    var size: nat := 0;
    var i: nat := 0;
    var k := 0;
    PackLoopEnter(children, obj, values);
    while k < |children|
      invariant 0 <= k <= |children|
      invariant PackInv(children, obj, values, k, i, out, size)
    {
      var serializer := children[k];
      var count := serializer.numValues;
      var packed := PackWith(serializer, obj, Slice(values, i, i + count));
      if packed.Err? {
        PackLoopErr(children, obj, values, k, i, out, size, packed);
        return Err(packed.error);
      }
      ghost var k0, i0, out0, size0 := k, i, out, size;
      out := out + packed.value.data;
      size := size + packed.value.size;
      i := i + count;
      k := k + 1;
      PackLoopStep(children, obj, values, k0, i0, out0, size0, packed, k, i, out, size);
    }
    PackLoopExit(children, obj, values, i, out, size);
    return Ok(Packed(out, size));
  }

  /** The loop of `_iter_unpackers`/`unpack`: each child reads `buffer[size:]`. */
  method UnpackChildren(children: seq<Codec>, obj: Value, buffer: seq<byte>) returns (r: Result<Unpacked>)
    ensures r == CompoundUnpack(children, obj, buffer)
  {
    var values: seq<Value> := [];
    var size: nat := 0;
    var k := 0;
    UnpackLoopEnter(children, obj, buffer);
    while k < |children|
      invariant 0 <= k <= |children|
      invariant UnpackInv(children, obj, buffer, k, values, size)
    {
      var serializer := children[k];
      var unpacked := UnpackWith(serializer, obj, Drop(buffer, size));
      if unpacked.Err? {
        UnpackLoopErr(children, obj, buffer, k, values, size, unpacked);
        return Err(unpacked.error);
      }
      ghost var k0, values0, size0 := k, values, size;
      values := values + unpacked.value.values;
      size := size + unpacked.value.size;
      k := k + 1;
      UnpackLoopStep(children, obj, buffer, k0, values0, size0, unpacked, k, values, size);
    }
    UnpackLoopExit(children, obj, buffer, values, size);
    return Ok(Unpacked(values, size));
  }

  /** The loop of `_iter_unpackers`/`unpack_from`: each child reads at
    * `offset + size`. */
  method UnpackChildrenFrom(children: seq<Codec>, obj: Value, buffer: seq<byte>, offset: nat) returns (r: Result<Unpacked>)
    ensures r == CompoundUnpackFrom(children, obj, buffer, offset)
  {
    var values: seq<Value> := [];
    var size: nat := 0;
    var k := 0;
    UnpackFromLoopEnter(children, obj, buffer, offset);
    while k < |children|
      invariant 0 <= k <= |children|
      invariant UnpackFromInv(children, obj, buffer, offset, k, values, size)
    {
      var serializer := children[k];
      var unpacked := UnpackFromWith(serializer, obj, buffer, offset + size);
      if unpacked.Err? {
        UnpackFromLoopErr(children, obj, buffer, offset, k, values, size, unpacked);
        return Err(unpacked.error);
      }
      ghost var k0, values0, size0 := k, values, size;
      values := values + unpacked.value.values;
      size := size + unpacked.value.size;
      k := k + 1;
      UnpackFromLoopStep(children, obj, buffer, offset, k0, values0, size0, unpacked, k, values, size);
    }
    UnpackFromLoopExit(children, obj, buffer, offset, values, size);
    return Ok(Unpacked(values, size));
  }

  /** A `CompoundSerializer` used without preprocessing, which happens only
    * when no child overrides `prepack`/`preunpack` (api.py:260-264); such
    * children ignore the partial object, so none is passed. */
  class CompoundSerializer {
    const serializers: seq<Codec>
    const numValues: nat
    var size: nat

    constructor (children: seq<Codec>)
      ensures serializers == children && numValues == SumNumValues(children) && size == 0
    {
      serializers := children;
      numValues := SumNumValues(children);
      size := 0;
    }

    /** `pack`; `size` is written only once every child has packed. */
    method Pack(values: seq<Value>) returns (r: Result<seq<byte>>)
      modifies this
      ensures var spec := CompoundPack(serializers, NoneValue, values);
        (spec.Err? ==> r == Err(spec.error) && size == old(size))
        && (spec.Ok? ==> r == Ok(spec.value.data) && size == spec.value.size)
    {
      var packed := PackChildren(serializers, NoneValue, values);
      if packed.Err? {
        return Err(packed.error);
      }
      size := packed.value.size;
      return Ok(packed.value.data);
    }

    method Unpack(buffer: seq<byte>) returns (r: Result<seq<Value>>)
      modifies this
      ensures var spec := CompoundUnpack(serializers, NoneValue, buffer);
        (spec.Err? ==> r == Err(spec.error) && size == old(size))
        && (spec.Ok? ==> r == Ok(spec.value.values) && size == spec.value.size)
    {
      var unpacked := UnpackChildren(serializers, NoneValue, buffer);
      if unpacked.Err? {
        return Err(unpacked.error);
      }
      size := unpacked.value.size;
      return Ok(unpacked.value.values);
    }

    method UnpackFrom(buffer: seq<byte>, offset: nat) returns (r: Result<seq<Value>>)
      modifies this
      ensures var spec := CompoundUnpackFrom(serializers, NoneValue, buffer, offset);
        (spec.Err? ==> r == Err(spec.error) && size == old(size))
        && (spec.Ok? ==> r == Ok(spec.value.values) && size == spec.value.size)
    {
      var unpacked := UnpackChildrenFrom(serializers, NoneValue, buffer, offset);
      if unpacked.Err? {
        return Err(unpacked.error);
      }
      size := unpacked.value.size;
      return Ok(unpacked.value.values);
    }
  }

  /** `_SpecializedCompoundSerializer` (api.py:367-405): the children are
    * prepacked/preunpacked with the partial object, and the total size is
    * written to the originating compound as well. */
  class SpecializedCompoundSerializer {
    const origin: CompoundSerializer
    const partialObject: Value
    const serializers: seq<Codec>
    const numValues: nat
    var size: nat

    constructor (from: CompoundSerializer, obj: Value)
      ensures origin == from && partialObject == obj
      ensures serializers == from.serializers && numValues == from.numValues && size == from.size
    {
      origin := from;
      partialObject := obj;
      serializers := from.serializers;
      numValues := from.numValues;
      size := from.size;
    }

    method Pack(values: seq<Value>) returns (r: Result<seq<byte>>)
      modifies this, origin
      ensures var spec := CompoundPack(serializers, partialObject, values);
        (spec.Err? ==> r == Err(spec.error) && size == old(size) && origin.size == old(origin.size))
        && (spec.Ok? ==> r == Ok(spec.value.data) && size == spec.value.size && origin.size == spec.value.size)
    {
      var packed := PackChildren(serializers, partialObject, values);
      if packed.Err? {
        return Err(packed.error);
      }
      size := packed.value.size;
      origin.size := packed.value.size;
      return Ok(packed.value.data);
    }

    method Unpack(buffer: seq<byte>) returns (r: Result<seq<Value>>)
      modifies this, origin
      ensures var spec := CompoundUnpack(serializers, partialObject, buffer);
        (spec.Err? ==> r == Err(spec.error) && size == old(size) && origin.size == old(origin.size))
        && (spec.Ok? ==> r == Ok(spec.value.values) && size == spec.value.size && origin.size == spec.value.size)
    {
      var unpacked := UnpackChildren(serializers, partialObject, buffer);
      if unpacked.Err? {
        return Err(unpacked.error);
      }
      size := unpacked.value.size;
      origin.size := unpacked.value.size;
      return Ok(unpacked.value.values);
    }

    method UnpackFrom(buffer: seq<byte>, offset: nat) returns (r: Result<seq<Value>>)
      modifies this, origin
      ensures var spec := CompoundUnpackFrom(serializers, partialObject, buffer, offset);
        (spec.Err? ==> r == Err(spec.error) && size == old(size) && origin.size == old(origin.size))
        && (spec.Ok? ==> r == Ok(spec.value.values) && size == spec.value.size && origin.size == spec.value.size)
    {
      var unpacked := UnpackChildrenFrom(serializers, partialObject, buffer, offset);
      if unpacked.Err? {
        return Err(unpacked.error);
      }
      size := unpacked.value.size;
      origin.size := unpacked.value.size;
      return Ok(unpacked.value.values);
    }
  }
}
