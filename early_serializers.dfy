/** The first generation of serializer objects, structured/serializers.py:
  * its own format fold, struct and action serializers whose `num_values` is
  * given rather than computed, the null serializer, the compound, and the
  * way Python's `+` chooses between their `__add__` and `__radd__`. */
module EarlySerializers {
  import opened Outcomes
  import opened Values
  import opened ByteOrders
  import opened PyStruct
  import opened Codecs
  import Structs
  import Compounds
  import Semantics

  // ---- fold_overlaps ----

  /** The last character of `f1` is the first character of `f2` and may be
    * merged.  A counted first item starts with a digit, which never equals
    * the last character of a format, so `f2` must start uncounted. */
  predicate EarlyOverlaps(f1: Format, f2: Format, combineStrings: bool)
  {
    |f1| > 0 && |f2| > 0 && f2[0].count.None? && f1[|f1| - 1].spec == f2[0].spec
    && (combineStrings || !IsStringChar(f2[0].spec))
  }

  /** `fold_overlaps` (serializers.py:63-89).  The end-anchored pattern at
    * line 60 reads the count written before `f1`'s last character (1 when
    * there is none), and the merged item has that count plus one. */
  function EarlyFold(f1: Format, f2: Format, combineStrings: bool): (r: Format)
    ensures |f1| == 0 ==> r == f2
    ensures |f2| == 0 ==> r == f1
    ensures !EarlyOverlaps(f1, f2, combineStrings) ==> r == f1 + f2
    ensures EarlyOverlaps(f1, f2, combineStrings) ==>
      |r| == |f1| + |f2| - 1 && r[..|f1| - 1] == f1[..|f1| - 1] && r[|f1|..] == f2[1..]
      && r[|f1| - 1] == Item(Some(Count(f1[|f1| - 1]) + 1), f2[0].spec)
  {
    if EarlyOverlaps(f1, f2, combineStrings)
    then f1[..|f1| - 1] + [Structs.Merged(f1[|f1| - 1], f2[0])] + f2[1..]
    else f1 + f2
  }

  /** Whenever `f2` does not start with a counted item, the early fold is the
    * later engine's fold; otherwise it only concatenates. */
  lemma {:induction false} EarlyFoldAgrees(f1: Format, f2: Format, combineStrings: bool)
    ensures (|f2| == 0 || f2[0].count.None?) ==>
      EarlyFold(f1, f2, combineStrings) == Structs.FoldOverlaps(f1, f2, combineStrings)
    ensures |f2| > 0 && f2[0].count.Some? ==> EarlyFold(f1, f2, combineStrings) == f1 + f2
  {
    if EarlyOverlaps(f1, f2, combineStrings) {
      assert Structs.Overlaps(f1, f2, combineStrings);
    }
  }

  /** Folding keeps the struct's size, strings combined or not. */
  lemma {:induction false} EarlyFoldCalcSize(f1: Format, f2: Format, combineStrings: bool)
    ensures CalcSize(EarlyFold(f1, f2, combineStrings)) == CalcSize(f1) + CalcSize(f2)
  {
    EarlyFoldAgrees(f1, f2, combineStrings);
    if EarlyOverlaps(f1, f2, combineStrings) {
      Structs.FoldOverlapsCalcSize(f1, f2, combineStrings);
    } else {
      FormatAppend(f1, f2);
    }
  }

  /** Without string combining the folded format has exactly the fields of
    * the two formats one after the other. */
  lemma {:induction false} EarlyFoldLayout(f1: Format, f2: Format)
    ensures Expand(EarlyFold(f1, f2, false)) == Expand(f1 + f2)
  {
    EarlyFoldAgrees(f1, f2, false);
    if EarlyOverlaps(f1, f2, false) {
      Structs.FoldOverlapsLayout(f1, f2);
    }
  }

  /** `'4sI' + 'I'` gives `'4s2I'`; `'h' + '2h'` stays `'h2h'`, where the
    * later engine gives `'3h'`. */
  lemma {:induction false} EarlyFoldExamples()
    ensures EarlyFold([Item(Some(4), 's'), Item(None, 'I')], [Item(None, 'I')], false)
      == [Item(Some(4), 's'), Item(Some(2), 'I')]
    ensures EarlyFold([Item(None, 'h')], [Item(Some(2), 'h')], false) == [Item(None, 'h'), Item(Some(2), 'h')]
    ensures Structs.FoldOverlaps([Item(None, 'h')], [Item(Some(2), 'h')], false) == [Item(Some(3), 'h')]
  {
    var f := [Item(Some(4), 's'), Item(None, 'I')];
    assert f[..1] == [Item(Some(4), 's')];
    assert [Item(None, 'I')][1..] == [];
    assert [Item(Some(2), 'h')][1..] == [];
  }

  // ---- the serializer objects ----

  /** The serializers `+` combines.  `Struct` and `Action` carry their
    * `num_values` as given to the constructor; `Custom` is any other
    * `Serializer` subclass, which inherits `Serializer.__add__`. */
  datatype ESer =
    | Null
    | Struct(st: Structs.StructSer, nv: nat)
    | Action(st: Structs.StructSer, nv: nat, actions: seq<Structs.ActionId>)
    | Compound(children: seq<ESer>)
    | Custom(codec: Codec)

  /** The number of serializer objects in a tree of compounds. */
  function Size(s: ESer): (r: nat)
    ensures r >= 1
    ensures !s.Compound? ==> r == 1
  {
    match s
    case Compound(cs) => 1 + SumSize(cs)
    case _ => 1
  }

  function SumSize(cs: seq<ESer>): nat
  {
    if cs == [] then 0 else Size(cs[0]) + SumSize(cs[1..])
  }

  lemma {:induction false} SumSizeLast(cs: seq<ESer>)
    requires cs != []
    ensures Size(cs[|cs| - 1]) <= SumSize(cs)
  {
    if |cs| > 1 {
      SumSizeLast(cs[1..]);
      assert cs[1..][|cs[1..]| - 1] == cs[|cs| - 1];
    }
  }

  /** The size of the last serializer of a list, 0 for an empty list. */
  function LastSize(list: seq<ESer>): nat
  {
    if list == [] then 0 else Size(list[|list| - 1])
  }

  /** What `_add_impl` is given by `CompoundSerializer.__add__` is no larger
    * than the two operands. */
  lemma {:induction false} ListMeasure(cs: seq<ESer>, b: ESer)
    ensures LastSize(cs) + SumSize(if b.Compound? then b.children else [b]) <= SumSize(cs) + Size(b)
  {
    if cs != [] {
      SumSizeLast(cs);
    }
    assert [b][1..] == [];
  }

  /** `num_values` of each kind of serializer; a compound's is the sum over
    * its children (serializers.py:410-413), the null serializer's is 0. */
  function NumValuesOf(s: ESer): nat
  {
    match s
    case Null => 0
    case Struct(_, nv) => nv
    case Action(_, nv, _) => nv
    case Compound(cs) => SumNumValuesOf(cs)
    case Custom(c) => c.numValues
  }

  function SumNumValuesOf(cs: seq<ESer>): nat
  {
    if cs == [] then 0 else NumValuesOf(cs[0]) + SumNumValuesOf(cs[1..])
  }

  // ---- `+` between structs ----

  /** `StructSerializer.__add__` with another struct (serializers.py:303-314):
    * the folded formats, the summed `num_values` and the left byte order;
    * the right byte order is not looked at. */
  function StructAdd(a: ESer, b: ESer): (r: ESer)
    requires (a.Struct? || a.Action?) && (b.Struct? || b.Action?)
    ensures r.Struct? && r.nv == a.nv + b.nv && r.st.byteOrder == a.st.byteOrder
    ensures Expand(r.st.fmt) == Expand(a.st.fmt + b.st.fmt)
    ensures Structs.StructSize(r.st) == Structs.StructSize(a.st) + Structs.StructSize(b.st)
  {
    EarlyFoldLayout(a.st.fmt, b.st.fmt);
    EarlyFoldCalcSize(a.st.fmt, b.st.fmt, false);
    Struct(Structs.StructSer(EarlyFold(a.st.fmt, b.st.fmt, false), a.st.byteOrder), a.nv + b.nv)
  }

  /** `StructActionSerializer.__add__` (serializers.py:364-376) with a struct
    * on the right: its actions, or one `noop_action` per value of a plain
    * struct, follow the left operand's. */
  function ActionAdd(a: ESer, b: ESer): (r: ESer)
    requires a.Action? && (b.Struct? || b.Action?)
    ensures r.Action? && r.nv == a.nv + b.nv && r.st.byteOrder == a.st.byteOrder
    ensures Expand(r.st.fmt) == Expand(a.st.fmt + b.st.fmt)
    ensures b.Action? ==> r.actions == a.actions + b.actions
    ensures b.Struct? ==> r.actions == a.actions + Repeat(Structs.Noop, b.nv)
  {
    EarlyFoldLayout(a.st.fmt, b.st.fmt);
    Action(Structs.StructSer(EarlyFold(a.st.fmt, b.st.fmt, false), a.st.byteOrder), a.nv + b.nv,
      a.actions + if b.Action? then b.actions else Repeat(Structs.Noop, b.nv))
  }

  /** `StructActionSerializer.__radd__` (serializers.py:378-389) with a struct
    * on the left: one `noop_action` per value of the left operand, then the
    * actions, in the left operand's byte order. */
  function ActionRadd(a: ESer, left: ESer): (r: ESer)
    requires a.Action? && (left.Struct? || left.Action?)
    ensures r.Action? && r.nv == left.nv + a.nv && r.st.byteOrder == left.st.byteOrder
    ensures Expand(r.st.fmt) == Expand(left.st.fmt + a.st.fmt)
    ensures r.actions == Repeat(Structs.Noop, left.nv) + a.actions
  {
    EarlyFoldLayout(left.st.fmt, a.st.fmt);
    Action(Structs.StructSer(EarlyFold(left.st.fmt, a.st.fmt, false), left.st.byteOrder), left.nv + a.nv,
      Repeat(Structs.Noop, left.nv) + a.actions)
  }

  // ---- `*` ----

  /** `reduce(fold_overlaps, repeat(fmt, n))`. */
  function EarlyRepeated(f: Format, n: nat, combineStrings: bool): Format
    requires n >= 1
  {
    if n == 1 then f else EarlyFold(EarlyRepeated(f, n - 1, combineStrings), f, combineStrings)
  }

  lemma {:induction false} EarlyRepeatedSize(f: Format, n: nat, combineStrings: bool)
    requires n >= 1
    ensures CalcSize(EarlyRepeated(f, n, combineStrings)) == CalcSize(f) * n
  {
    if n > 1 {
      EarlyRepeatedSize(f, n - 1, combineStrings);
      EarlyFoldCalcSize(EarlyRepeated(f, n - 1, combineStrings), f, combineStrings);
      assert CalcSize(f) * (n - 1) + CalcSize(f) == CalcSize(f) * n;
    }
  }

  lemma {:induction false} EarlyRepeatedLayout(f: Format, n: nat)
    requires n >= 1
    ensures Expand(EarlyRepeated(f, n, false)) == Structs.Times(Expand(f), n)
  {
    if n == 1 {
      assert Structs.Times(Expand(f), 1) == Structs.Times(Expand(f), 0) + Expand(f);
    } else {
      EarlyRepeatedLayout(f, n - 1);
      EarlyFoldLayout(EarlyRepeated(f, n - 1, false), f);
      ExpandAppend(EarlyRepeated(f, n - 1, false), f);
    }
  }

  /** `StructSerializer.__mul__` as written (serializers.py:316-325): the
    * copies are folded with `combine_strings=True`. */
  function StructMulAsWritten(s: ESer, k: Structs.Factor): (r: Result<ESer>)
    requires s.Struct?
    ensures k.NotInt? ==> r == Err(TypeError)
    ensures k.IntFactor? && k.n <= 0 ==> r == Err(ValueError)
    ensures k.IntFactor? && k.n == 1 ==> r == Ok(s)
    ensures r.Ok? ==> (r.value.Struct? && k.IntFactor? && r.value.nv == s.nv * k.n
      && r.value.st.byteOrder == s.st.byteOrder
      && Structs.StructSize(r.value.st) == Structs.StructSize(s.st) * k.n)
  {
    match k
    case NotInt => Err(TypeError)
    case IntFactor(n) =>
      if n <= 0 then Err(ValueError)
      else if n == 1 then Ok(s)
      else
        EarlyRepeatedSize(s.st.fmt, n, true);
        Ok(Struct(Structs.StructSer(EarlyRepeated(s.st.fmt, n, true), s.st.byteOrder), s.nv * n))
  }

  /** `*` with the copies kept apart, as `num_values * n` presumes: the
    * fields are `n` copies of the struct's fields. */
  function StructMul(s: ESer, k: Structs.Factor): (r: Result<ESer>)
    requires s.Struct?
    ensures k.NotInt? ==> r == Err(TypeError)
    ensures k.IntFactor? && k.n <= 0 ==> r == Err(ValueError)
    ensures k.IntFactor? && k.n == 1 ==> r == Ok(s)
    ensures r.Ok? ==> (r.value.Struct? && k.IntFactor? && r.value.nv == s.nv * k.n
      && r.value.st.byteOrder == s.st.byteOrder
      && Expand(r.value.st.fmt) == Structs.Times(Expand(s.st.fmt), k.n))
  {
    match k
    case NotInt => Err(TypeError)
    case IntFactor(n) =>
      if n <= 0 then Err(ValueError)
      else if n == 1 then
        assert Structs.Times(Expand(s.st.fmt), 1) == Structs.Times(Expand(s.st.fmt), 0) + Expand(s.st.fmt);
        Ok(s)
      else
        EarlyRepeatedLayout(s.st.fmt, n);
        Ok(Struct(Structs.StructSer(EarlyRepeated(s.st.fmt, n, false), s.st.byteOrder), s.nv * n))
  }

  /** The corrected `*` accepts every positive count. */
  lemma {:induction false} StructMulAccepts(s: ESer, n: int)
    requires s.Struct? && n > 0
    ensures StructMul(s, Structs.IntFactor(n)).Ok?
  {
  }

  /** A struct whose declared `num_values` is what its format packs. */
  predicate Consistent(s: ESer)
  {
    (s.Struct? || s.Action?) && s.nv == Structs.StructNumValues(s.st)
  }

  /** The corrected `*` keeps a consistent struct consistent, and its size is
    * `n` times the struct's. */
  lemma {:induction false} StructMulConsistent(s: ESer, n: int)
    requires s.Struct? && Consistent(s) && n >= 1
    ensures StructMul(s, Structs.IntFactor(n)).Ok?
    ensures Consistent(StructMul(s, Structs.IntFactor(n)).value)
    ensures Structs.StructSize(StructMul(s, Structs.IntFactor(n)).value.st) == Structs.StructSize(s.st) * n
  {
    Structs.TimesValues(Expand(s.st.fmt), n);
  }

  /** As written, `StructSerializer('s') * 2` is the format `'2s'`, a single
    * value, with `num_values` 2: packing the two values it announces is a
    * `struct.error`.  The corrected `*` gives `'ss'`, which packs them. */
  lemma {:induction false} StringMulMismatch()
    ensures var s := Struct(Structs.StructSer([Item(None, 's')], Default), 1);
      var r := StructMulAsWritten(s, Structs.IntFactor(2));
      r == Ok(Struct(Structs.StructSer([Item(Some(2), 's')], Default), 2))
      && Structs.StructPack(r.value.st, [Bytes([97]), Bytes([98])]) == Err(StructError)
    ensures var s := Struct(Structs.StructSer([Item(None, 's')], Default), 1);
      var r := StructMul(s, Structs.IntFactor(2));
      r == Ok(Struct(Structs.StructSer([Item(None, 's'), Item(None, 's')], Default), 2))
      && Structs.StructPack(r.value.st, [Bytes([97]), Bytes([98])]) == Ok(Packed([97, 98], 2))
  {
    var one := [Item(None, 's')];
    assert EarlyRepeated(one, 2, true) == [Item(Some(2), 's')];
    assert EarlyRepeated(one, 2, false) == [Item(None, 's'), Item(None, 's')];
    var two := [Item(Some(2), 's')];
    assert Expand(two) == [Str(2)] by {
      assert two[1..] == [];
    }
    assert NumValues(two) == 1;
    var ss := [Item(None, 's'), Item(None, 's')];
    assert Expand(ss) == [Str(1), Str(1)] by {
      assert ss[1..] == one && one[1..] == [];
    }
    var us := [Str(1), Str(1)];
    assert us[1..] == [Str(1)] && us[1..][1..] == [];
    var a: seq<byte>, b: seq<byte> := [97], [98];
    assert Truncate(a, 1) == a && Truncate(b, 1) == b by {
      assert a[..1] == a && b[..1] == b;
    }
    var vs := [Bytes(a), Bytes(b)];
    assert vs[1..] == [Bytes(b)] && vs[1..][1..] == [];
    assert PackUnits(Default, us[1..][1..], vs[1..][1..]) == Ok([]);
    assert PackUnits(Default, us[1..], vs[1..]) == Ok(b) by {
      assert PackUnit(Default, Str(1), Bytes(b)) == Ok(b);
      assert b + [] == b;
    }
    assert PackUnits(Default, us, vs) == Ok(a + b) by {
      assert PackUnit(Default, Str(1), Bytes(a)) == Ok(a);
    }
    assert NumValues(ss) == 2 && CalcSize(ss) == 2;
    assert a + b == [97, 98];
    assert PyStruct.Pack(Default, ss, vs) == PackUnits(Default, us, vs);
    assert Structs.StructPack(Structs.StructSer(ss, Default), vs) == Ok(Packed([97, 98], 2));
  }

  /** `StructActionSerializer.__mul__` (serializers.py:391-402): the fold
    * without string combining, and the actions repeated `n` times. */
  function ActionMul(a: ESer, k: Structs.Factor): (r: Result<ESer>)
    requires a.Action?
    ensures k.NotInt? ==> r == Err(TypeError)
    ensures k.IntFactor? && k.n <= 0 ==> r == Err(ValueError)
    ensures k.IntFactor? && k.n == 1 ==> r == Ok(a)
    ensures r.Ok? ==> (r.value.Action? && k.IntFactor? && r.value.nv == a.nv * k.n
      && r.value.st.byteOrder == a.st.byteOrder
      && Expand(r.value.st.fmt) == Structs.Times(Expand(a.st.fmt), k.n)
      && r.value.actions == Structs.Times(a.actions, k.n))
  {
    match k
    case NotInt => Err(TypeError)
    case IntFactor(n) =>
      if n <= 0 then Err(ValueError)
      else if n == 1 then
        assert Structs.Times(Expand(a.st.fmt), 1) == Structs.Times(Expand(a.st.fmt), 0) + Expand(a.st.fmt);
        assert Structs.Times(a.actions, 1) == Structs.Times(a.actions, 0) + a.actions;
        Ok(a)
      else
        EarlyRepeatedLayout(a.st.fmt, n);
        Ok(Action(Structs.StructSer(EarlyRepeated(a.st.fmt, n, false), a.st.byteOrder), a.nv * n,
          Structs.Times(a.actions, n)))
  }

  // ---- with_byte_order ----

  /** `with_byte_order`: a struct keeps its fields and `num_values` and takes
    * the new order, returning itself when the order is unchanged
    * (serializers.py:275-280, 356-360); an action serializer keeps its actions;
    * a compound reorders every child (serializers.py:475-479); the null and
    * any other serializer return themselves (serializers.py:174-182). */
  function WithByteOrder(s: ESer, bo: ByteOrder): (r: ESer)
    ensures NumValuesOf(r) == NumValuesOf(s)
    ensures (s.Struct? || s.Action?) ==> (r.Struct? == s.Struct? && r.Action? == s.Action?
      && r.st == Structs.StructWithByteOrder(s.st, bo) && r.nv == s.nv)
    ensures s.Action? ==> r.actions == s.actions
    ensures s.Compound? ==> (r.Compound? && |r.children| == |s.children|
      && forall i :: 0 <= i < |s.children| ==> r.children[i] == WithByteOrder(s.children[i], bo))
    ensures (s.Null? || s.Custom?) ==> r == s
  {
    match s
    case Struct(st, nv) => Struct(Structs.StructWithByteOrder(st, bo), nv)
    case Action(st, nv, acts) => Action(Structs.StructWithByteOrder(st, bo), nv, acts)
    case Compound(cs) => Compound(WithByteOrderAll(cs, bo))
    case _ => s
  }

  function WithByteOrderAll(cs: seq<ESer>, bo: ByteOrder): (r: seq<ESer>)
    ensures |r| == |cs| && SumNumValuesOf(r) == SumNumValuesOf(cs)
    ensures forall i :: 0 <= i < |cs| ==> r[i] == WithByteOrder(cs[i], bo)
  {
    if cs == [] then [] else [WithByteOrder(cs[0], bo)] + WithByteOrderAll(cs[1..], bo)
  }

  /** Every struct below a serializer is in byte order `bo`. */
  predicate AllInOrder(s: ESer, bo: ByteOrder)
  {
    match s
    case Struct(st, _) => st.byteOrder == bo
    case Action(st, _, _) => st.byteOrder == bo
    case Compound(cs) => forall i :: 0 <= i < |cs| ==> AllInOrder(cs[i], bo)
    case _ => true
  }

  /** After `with_byte_order(bo)` every struct is in `bo`, and doing it again
    * changes nothing. */
  lemma {:induction false} WithByteOrderSettles(s: ESer, bo: ByteOrder)
    ensures AllInOrder(WithByteOrder(s, bo), bo)
    ensures WithByteOrder(WithByteOrder(s, bo), bo) == WithByteOrder(s, bo)
    decreases s
  {
    match s
    case Compound(cs) =>
      var r := WithByteOrder(s, bo);
      forall i | 0 <= i < |cs|
        ensures AllInOrder(r.children[i], bo)
        ensures WithByteOrder(r.children[i], bo) == r.children[i]
      {
        WithByteOrderSettles(cs[i], bo);
      }
      assert WithByteOrderAll(r.children, bo) == r.children;
    case _ =>
  }

  // ---- Python's `+` ----

  /** `x + y` of two serializers, with the dispatch Python makes: the
    * reflected `__radd__` of a right operand whose class is a proper
    * subclass of the left operand's (an action serializer to the right of a
    * plain struct) is tried first, then `x.__add__(y)`, then `y.__radd__(x)`;
    * TypeError when every one returns `NotImplemented`.
    *
    * With `raddCompounds` false this is the code as written:
    * `Serializer.__add__` (serializers.py:184-189) answers for every operand
    * but the null serializer, so a struct or a custom serializer to the left
    * of a compound builds a NESTED compound and `CompoundSerializer.__radd__`
    * (serializers.py:504-512) is reached only from an action serializer.
    * With `raddCompounds` true a compound on the right is left to its
    * `__radd__`, as the comment at serializers.py:505-506 intends. */
  function PlusBy(raddCompounds: bool, a: ESer, b: ESer): (r: Result<ESer>)
    decreases Size(a) + Size(b), 1, 0
  {
    match a
    case Null => Ok(b)
    case Struct(_, _) =>
      if b.Action? then Ok(ActionRadd(b, a))
      else if b.Struct? then Ok(StructAdd(a, b))
      else if b.Null? then Ok(a)
      else if b.Compound? && raddCompounds then AddImplBy(raddCompounds, [a], b.children)
      else Ok(Compound([a, b]))
    case Action(_, _, _) =>
      if b.Struct? || b.Action? then Ok(ActionAdd(a, b))
      else if b.Null? then Ok(a)
      else if b.Compound? then AddImplBy(raddCompounds, [a], b.children)
      else Err(TypeError)
    case Compound(cs) =>
      ListMeasure(cs, b);
      AddImplBy(raddCompounds, cs, if b.Compound? then b.children else [b])
    case Custom(_) =>
      if b.Null? then Ok(a)
      else if b.Compound? && raddCompounds then AddImplBy(raddCompounds, [a], b.children)
      else Ok(Compound([a, b]))
  }

  /** `_add_impl` (serializers.py:491-502): each candidate is joined to the
    * last serializer; a compound result means appending the candidate,
    * anything else replaces the last serializer.  An empty list has no last
    * serializer: IndexError. */
  function AddImplBy(raddCompounds: bool, list: seq<ESer>, todo: seq<ESer>): (r: Result<ESer>)
    decreases LastSize(list) + SumSize(todo) + 1, 0, |todo|
  {
    if todo == [] then Ok(Compound(list))
    else if list == [] then Err(IndexError)
    else
      var joined := PlusBy(raddCompounds, list[|list| - 1], todo[0]);
      if joined.Err? then joined
      else if joined.value.Compound? then AddImplBy(raddCompounds, list + [todo[0]], todo[1..])
      else AddImplBy(raddCompounds, list[..|list| - 1] + [joined.value], todo[1..])
  }

  function PlusAsWritten(a: ESer, b: ESer): Result<ESer>
  {
    PlusBy(false, a, b)
  }

  /** `+` as intended; the rest of the model uses this one. */
  function Plus(a: ESer, b: ESer): Result<ESer>
  {
    PlusBy(true, a, b)
  }

  /** The loop of `_add_impl`, over a list it extends or whose last element
    * it replaces. */
  method AddInto(serializers: seq<ESer>, toAppend: seq<ESer>) returns (r: Result<ESer>)
    ensures r == AddImplBy(true, serializers, toAppend)
  {
    var list := serializers;
    var i := 0;
    while i < |toAppend|
      invariant 0 <= i <= |toAppend|
      invariant AddImplBy(true, list, toAppend[i..]) == AddImplBy(true, serializers, toAppend)
    {
      if list == [] {
        return Err(IndexError);
      }
      var joined := Plus(list[|list| - 1], toAppend[i]);
      if joined.Err? {
        return joined;
      }
      assert toAppend[i..][1..] == toAppend[i + 1..];
      if joined.value.Compound? {
        list := list + [toAppend[i]];
      } else {
        list := list[..|list| - 1] + [joined.value];
      }
      i := i + 1;
    }
    assert toAppend[i..] == [];
    return Ok(Compound(list));
  }

  // ---- flatness ----

  /** A compound none of whose children is a compound. */
  predicate FlatList(cs: seq<ESer>)
  {
    forall i :: 0 <= i < |cs| ==> !cs[i].Compound?
  }

  /** Not a compound, or a non-empty flat compound. */
  predicate Flat(s: ESer)
  {
    s.Compound? ==> s.children != [] && FlatList(s.children)
  }

  /** Two serializers neither of which is a compound join into a serializer
    * that is not a compound, into the pair of them, or fail. */
  lemma {:induction false} JoinShape(raddCompounds: bool, x: ESer, c: ESer)
    requires !x.Compound? && !c.Compound?
    ensures var j := PlusBy(raddCompounds, x, c);
      j.Ok? && j.value.Compound? ==> j.value == Compound([x, c])
  {
  }

  lemma {:induction false} AddImplFlat(raddCompounds: bool, list: seq<ESer>, todo: seq<ESer>)
    requires list != [] && FlatList(list) && FlatList(todo)
    ensures AddImplBy(raddCompounds, list, todo).Ok? ==> Flat(AddImplBy(raddCompounds, list, todo).value)
    decreases |todo|
  {
    if todo != [] {
      var joined := PlusBy(raddCompounds, list[|list| - 1], todo[0]);
      JoinShape(raddCompounds, list[|list| - 1], todo[0]);
      if joined.Ok? {
        if joined.value.Compound? {
          AddImplFlat(raddCompounds, list + [todo[0]], todo[1..]);
        } else {
          AddImplFlat(raddCompounds, list[..|list| - 1] + [joined.value], todo[1..]);
        }
      }
    }
  }

  /** `_add_impl` never nests: `+` with a flat non-empty compound on either
    * side gives a flat compound. */
  lemma {:induction false} PlusFlat(a: ESer, b: ESer)
    requires Flat(a) && Flat(b) && (a.Compound? || b.Compound?)
    ensures Plus(a, b).Ok? ==> Flat(Plus(a, b).value) && Plus(a, b).value.Compound?
  {
    if a.Compound? {
      AddImplFlat(true, a.children, if b.Compound? then b.children else [b]);
      AddImplIsCompound(true, a.children, if b.Compound? then b.children else [b]);
    } else if !a.Null? {
      AddImplFlat(true, [a], b.children);
      AddImplIsCompound(true, [a], b.children);
    }
  }

  lemma {:induction false} AddImplIsCompound(raddCompounds: bool, list: seq<ESer>, todo: seq<ESer>)
    ensures AddImplBy(raddCompounds, list, todo).Ok? ==> AddImplBy(raddCompounds, list, todo).value.Compound?
    decreases |todo|
  {
    if todo != [] && list != [] {
      var joined := PlusBy(raddCompounds, list[|list| - 1], todo[0]);
      if joined.Ok? {
        if joined.value.Compound? {
          AddImplIsCompound(raddCompounds, list + [todo[0]], todo[1..]);
        } else {
          AddImplIsCompound(raddCompounds, list[..|list| - 1] + [joined.value], todo[1..]);
        }
      }
    }
  }

  /** As written, `StructSerializer('b') + CompoundSerializer((h, x))` for a
    * custom `x` is a compound of two children whose second is the compound
    * itself; the intended `+` folds `'b'` into `'h'` and gives the flat
    * `(bh, x)`. */
  lemma {:induction false} StructPlusCompoundNests(x: Codec)
    ensures var b := Struct(Structs.StructSer([Item(None, 'b')], Default), 1);
      var h := Struct(Structs.StructSer([Item(None, 'h')], Default), 1);
      var bh := Struct(Structs.StructSer([Item(None, 'b'), Item(None, 'h')], Default), 2);
      PlusAsWritten(b, Compound([h, Custom(x)])) == Ok(Compound([b, Compound([h, Custom(x)])]))
      && Plus(b, Compound([h, Custom(x)])) == Ok(Compound([bh, Custom(x)]))
  {
    var b := Struct(Structs.StructSer([Item(None, 'b')], Default), 1);
    var h := Struct(Structs.StructSer([Item(None, 'h')], Default), 1);
    var bh := Struct(Structs.StructSer([Item(None, 'b'), Item(None, 'h')], Default), 2);
    var todo := [h, Custom(x)];
    assert !EarlyOverlaps(b.st.fmt, h.st.fmt, false);
    assert b.st.fmt + h.st.fmt == bh.st.fmt;
    assert StructAdd(b, h) == bh;
    assert Plus(b, h) == Ok(bh);
    assert [b][..0] + [bh] == [bh];
    assert AddImplBy(true, [b], todo) == AddImplBy(true, [bh], todo[1..]);
    assert todo[1..] == [Custom(x)] && todo[1..][1..] == [];
    assert Plus(bh, Custom(x)) == Ok(Compound([bh, Custom(x)]));
    assert [bh] + [Custom(x)] == [bh, Custom(x)];
    assert AddImplBy(true, [bh], [Custom(x)]) == AddImplBy(true, [bh, Custom(x)], []);
  }

  /** The null serializer is an identity for `+` on the left, and on the
    * right of any serializer that is not a nested or empty compound.  (An
    * empty compound has no last child to join with: IndexError.) */
  lemma {:induction false} NullIdentity(s: ESer)
    requires Flat(s)
    ensures Plus(Null, s) == Ok(s) && PlusAsWritten(Null, s) == Ok(s)
    ensures Plus(s, Null) == Ok(s) && PlusAsWritten(s, Null) == Ok(s)
  {
    if s.Compound? {
      NullAfterLast(true, s.children);
      NullAfterLast(false, s.children);
    }
  }

  lemma {:induction false} NullAfterLast(raddCompounds: bool, cs: seq<ESer>)
    requires cs != [] && FlatList(cs)
    ensures AddImplBy(raddCompounds, cs, [Null]) == Ok(Compound(cs))
  {
    var last := cs[|cs| - 1];
    assert !last.Compound?;
    assert PlusBy(raddCompounds, last, Null) == Ok(last);
    assert cs[..|cs| - 1] + [last] == cs;
    assert [Null][1..] == [];
  }

  /** Behind a nested compound the null serializer is appended, not
    * absorbed. */
  lemma {:induction false} NullAfterNested(x: ESer, inner: seq<ESer>)
    requires Flat(Compound(inner))
    ensures Plus(Compound([x, Compound(inner)]), Null) == Ok(Compound([x, Compound(inner), Null]))
  {
    NullAfterLast(true, inner);
    var cs := [x, Compound(inner)];
    assert [Null][1..] == [];
    assert Plus(Compound(inner), Null) == AddImplBy(true, inner, [Null]);
    assert cs[|cs| - 1] == Compound(inner);
    assert cs + [Null] == [x, Compound(inner), Null];
    assert Plus(Compound(cs), Null) == AddImplBy(true, cs, [Null]);
    assert AddImplBy(true, cs, [Null]) == AddImplBy(true, cs + [Null], []);
  }

  // ---- what the serializers do ----

  /** The null serializer: no bytes, no values. */
  function NullCodec(): (r: Codec)
    ensures r.numValues == 0
  {
    Codec(0,
      (obj: Value, vs: seq<Value>) => Ok(Packed([], 0)),
      (obj: Value, bs: seq<byte>) => Ok(Unpacked([], 0)),
      (obj: Value, bs: seq<byte>, off: nat) => Ok(Unpacked([], 0)))
  }

  /** A struct serializer with `num_values` as given; `unpack` cuts the
    * buffer to `size` (serializers.py:282-283). */
  function StructCodec(st: Structs.StructSer, nv: nat): (r: Codec)
    ensures r.numValues == nv
  {
    Codec(nv,
      (obj: Value, vs: seq<Value>) => Structs.StructPack(st, vs),
      (obj: Value, bs: seq<byte>) => Structs.StructUnpack(st, bs),
      (obj: Value, bs: seq<byte>, off: nat) => Structs.StructUnpackFrom(st, bs, off))
  }

  /** An action serializer: the struct's values zipped with the actions
    * (serializers.py:328-336), so the shorter of the two decides how many
    * values come back. */
  function ActionCodec(t: Structs.ActionTable, st: Structs.StructSer, nv: nat, actions: seq<Structs.ActionId>): (r: Codec)
    ensures r.numValues == nv
  {
    Codec(nv,
      (obj: Value, vs: seq<Value>) => Structs.StructPack(st, vs),
      (obj: Value, bs: seq<byte>) => Structs.ActionUnpack(t, Structs.ActionSer(st, actions), bs),
      (obj: Value, bs: seq<byte>, off: nat) => Structs.ActionUnpackFrom(t, Structs.ActionSer(st, actions), bs, off))
  }

  /** The behaviour of a serializer tree: a compound behaves as the compound
    * of its children's behaviours (serializers.py:415-464 share out values
    * and offsets exactly as the later engine's compound does). */
  function Sem(t: Structs.ActionTable, s: ESer): Codec
  {
    match s
    case Null => NullCodec()
    case Struct(st, nv) => StructCodec(st, nv)
    case Action(st, nv, acts) => ActionCodec(t, st, nv, acts)
    case Compound(cs) => Compounds.CompoundCodec(SemAll(t, cs))
    case Custom(c) => c
  }

  function SemAll(t: Structs.ActionTable, cs: seq<ESer>): (r: seq<Codec>)
    ensures |r| == |cs|
    ensures forall i :: 0 <= i < |cs| ==> r[i] == Sem(t, cs[i])
  {
    if cs == [] then [] else [Sem(t, cs[0])] + SemAll(t, cs[1..])
  }

  /** Every serializer's behaviour takes as many values as its
    * `num_values` says. */
  lemma {:induction false} SemNumValues(t: Structs.ActionTable, s: ESer)
    ensures Sem(t, s).numValues == NumValuesOf(s)
    decreases s
  {
    if s.Compound? {
      SemAllSums(t, s.children);
    }
  }

  lemma {:induction false} SemAllSums(t: Structs.ActionTable, cs: seq<ESer>)
    ensures Compounds.SumNumValues(SemAll(t, cs)) == SumNumValuesOf(cs)
    decreases cs
  {
    if cs != [] {
      SemNumValues(t, cs[0]);
      SemAllSums(t, cs[1..]);
      SumFromTail(SemAll(t, cs));
      assert SemAll(t, cs)[1..] == SemAll(t, cs[1..]);
    }
  }

  lemma {:induction false} SumFromTail(cs: seq<Codec>)
    requires cs != []
    ensures Compounds.SumNumValues(cs) == cs[0].numValues + Compounds.SumNumValues(cs[1..])
  {
    SumFromShift(cs, 1);
  }

  lemma {:induction false} SumFromShift(cs: seq<Codec>, k: nat)
    requires 1 <= k <= |cs|
    ensures Compounds.SumFrom(cs, k) == Compounds.SumFrom(cs[1..], k - 1)
    decreases |cs| - k
  {
    if k < |cs| {
      SumFromShift(cs, k + 1);
    }
  }

  // ---- `+` keeps the behaviour ----

  /** `+` of two structs of one byte order joins their formats. */
  lemma {:induction false} StructAddJoins(a: ESer, b: ESer)
    requires a.Struct? && b.Struct? && a.st.byteOrder == b.st.byteOrder
    ensures StructAdd(a, b).Struct? && Semantics.Joins(StructAdd(a, b).st, a.st, b.st)
  {
    ExpandAppend(a.st.fmt, b.st.fmt);
  }

  /** `struct.unpack_from` past the end of the buffer fails. */
  lemma {:induction false} StructUnpackFromPast(s: Structs.StructSer, bs: seq<byte>, off: nat)
    requires off > |bs|
    ensures Structs.StructUnpackFrom(s, bs, off) == Err(StructError)
  {
  }

  /** Two consistent structs in one byte order: their sum packs exactly what
    * the compound of the two packs. */
  lemma {:induction false} StructAddPacksLikeCompound(t: Structs.ActionTable, a: ESer, b: ESer, obj: Value, vs: seq<Value>)
    requires a.Struct? && b.Struct? && Consistent(a) && Consistent(b) && a.st.byteOrder == b.st.byteOrder
    requires |vs| == a.nv + b.nv
    ensures PackWith(Sem(t, StructAdd(a, b)), obj, vs) == Compounds.CompoundPack([Sem(t, a), Sem(t, b)], obj, vs)
  {
    hide PyStruct.Expand, PyStruct.CalcSize, PyStruct.Pack, PyStruct.Unpack, PyStruct.UnpackFrom, PyStruct.PackUnits,
      PyStruct.UnpackUnits, Structs.FoldOverlaps, Structs.StructPack, Structs.StructUnpack, Structs.StructUnpackFrom,
      Compounds.CompoundPack, Compounds.CompoundUnpack, Compounds.CompoundUnpackFrom;
    StructAddJoins(a, b);
    var j := StructAdd(a, b).st;
    var v1, v2 := Slice(vs, 0, a.nv), Slice(vs, a.nv, a.nv + b.nv);
    SliceIsSubsequence(vs, 0, a.nv);
    SliceIsSubsequence(vs, a.nv, a.nv + b.nv);
    assert vs == v1 + v2;
    Semantics.StructPackJoin(j, a.st, b.st, v1, v2);
    Compounds.CompoundPackPair(Sem(t, a), Sem(t, b), obj, vs);
  }

  /** ... and unpacks every buffer as the compound does. */
  lemma {:induction false} StructAddUnpacksLikeCompound(t: Structs.ActionTable, a: ESer, b: ESer, obj: Value, bs: seq<byte>)
    requires a.Struct? && b.Struct? && a.st.byteOrder == b.st.byteOrder
    ensures UnpackWith(Sem(t, StructAdd(a, b)), obj, bs) == Compounds.CompoundUnpack([Sem(t, a), Sem(t, b)], obj, bs)
  {
    hide PyStruct.Expand, PyStruct.CalcSize, PyStruct.Pack, PyStruct.Unpack, PyStruct.UnpackFrom, PyStruct.PackUnits,
      PyStruct.UnpackUnits, Structs.FoldOverlaps, Structs.StructPack, Structs.StructUnpack, Structs.StructUnpackFrom,
      Compounds.CompoundPack, Compounds.CompoundUnpack, Compounds.CompoundUnpackFrom;
    StructAddJoins(a, b);
    var j := StructAdd(a, b).st;
    Semantics.StructUnpackJoin(j, a.st, b.st, bs);
    Compounds.CompoundUnpackPair(Sem(t, a), Sem(t, b), obj, bs);
  }

  /** ... and reads at every offset as the compound does. */
  lemma {:induction false} StructAddUnpacksFromLikeCompound(t: Structs.ActionTable, a: ESer, b: ESer, obj: Value, bs: seq<byte>, off: nat)
    requires a.Struct? && b.Struct? && a.st.byteOrder == b.st.byteOrder
    ensures UnpackFromWith(Sem(t, StructAdd(a, b)), obj, bs, off)
      == Compounds.CompoundUnpackFrom([Sem(t, a), Sem(t, b)], obj, bs, off)
  {
    hide PyStruct.Expand, PyStruct.CalcSize, PyStruct.Pack, PyStruct.Unpack, PyStruct.UnpackFrom, PyStruct.PackUnits,
      PyStruct.UnpackUnits, Structs.FoldOverlaps, Structs.StructPack, Structs.StructUnpack, Structs.StructUnpackFrom,
      Compounds.CompoundPack, Compounds.CompoundUnpack, Compounds.CompoundUnpackFrom;
    StructAddJoins(a, b);
    var j := StructAdd(a, b).st;
    Compounds.CompoundUnpackFromPair(Sem(t, a), Sem(t, b), obj, bs, off);
    if off <= |bs| {
      Semantics.JoinedUnpackFrom(j, a.st, b.st, bs, off);
    } else {
      StructUnpackFromPast(a.st, bs, off);
      StructUnpackFromPast(j, bs, off);
    }
  }

  /** A nested compound behaves as the flat one: nesting loses only the
    * folding of neighbouring structs, never bytes or values. */
  lemma {:induction false} NestedPacksLikeFlat(c: Codec, ds: seq<Codec>, obj: Value, vs: seq<Value>)
    ensures Compounds.CompoundPack([c, Compounds.CompoundCodec(ds)], obj, vs)
      == Compounds.CompoundPack([c] + ds, obj, vs)
  {
    var n := c.numValues;
    var m := Compounds.SumNumValues(ds);
    var w := Drop(vs, n);
    Compounds.CompoundPackPair(c, Compounds.CompoundCodec(ds), obj, vs);
    Compounds.CompoundPackAppend([c], ds, obj, vs);
    OnePack(c, obj, vs);
    SliceOfDrop(vs, n, m);
    assert Slice(w, 0, m) == Take(w, m);
    TakeFirst(ds, obj, w);
  }

  lemma {:induction false} OnePack(c: Codec, obj: Value, vs: seq<Value>)
    ensures Compounds.CompoundPack([c], obj, vs) == PackWith(c, obj, Slice(vs, 0, c.numValues))
    ensures Compounds.SumNumValues([c]) == c.numValues
  {
    assert Compounds.PackFrom([c], 0, obj, vs, 0) == Compounds.PackChild([c], 0, obj, vs, 0);
    assert Compounds.PackFrom([c], 1, obj, vs, c.numValues) == Ok(Packed([], 0));
    Compounds.ThenPackUnitRight(PackWith(c, obj, Slice(vs, 0, c.numValues)));
    assert Compounds.SumFrom([c], 1) == 0;
  }

  /** A compound given more values than it takes packs only its own. */
  lemma {:induction false} TakeFirst(ds: seq<Codec>, obj: Value, w: seq<Value>)
    ensures Compounds.CompoundPack(ds, obj, Take(w, Compounds.SumNumValues(ds))) == Compounds.CompoundPack(ds, obj, w)
  {
    var m := Compounds.SumNumValues(ds);
    if m <= |w| {
      TakeIsPrefix(w, m);
      DropIsSuffix(w, m);
      assert w == Take(w, m) + Drop(w, m);
      Compounds.CompoundPackIgnoresExtraValues(ds, obj, Take(w, m), Drop(w, m));
    } else {
      TakePastEnd(w, m);
    }
  }

  /** ... and unpacks as the flat one, a nested compound reporting as its
    * `size` what its children consumed. */
  lemma {:induction false} NestedUnpacksLikeFlat(c: Codec, ds: seq<Codec>, obj: Value, bs: seq<byte>)
    ensures Compounds.CompoundUnpack([c, Compounds.CompoundCodec(ds)], obj, bs)
      == Compounds.CompoundUnpack([c] + ds, obj, bs)
  {
    Compounds.CompoundUnpackPair(c, Compounds.CompoundCodec(ds), obj, bs);
    Compounds.CompoundUnpackAppend([c], ds, obj, bs);
    OneUnpack(c, obj, bs);
  }

  lemma {:induction false} OneUnpack(c: Codec, obj: Value, bs: seq<byte>)
    ensures Compounds.CompoundUnpack([c], obj, bs) == UnpackWith(c, obj, bs)
  {
    assert Compounds.UnpackAt([c], 0, obj, bs, 0) == Compounds.UnpackChild([c], 0, obj, bs, 0);
    assert Drop(bs, 0) == bs;
    var h := UnpackWith(c, obj, bs);
    if h.Ok? {
      assert Compounds.UnpackAt([c], 1, obj, bs, h.value.size) == Ok(Unpacked([], 0));
      Compounds.ThenUnpackUnitRight(h);
    }
  }

  /** So the nested compound `+` builds as written behaves exactly as the
    * flat one. */
  lemma {:induction false} StructPlusCompoundBehaves(t: Structs.ActionTable, a: ESer, cs: seq<ESer>, obj: Value, vs: seq<Value>, bs: seq<byte>)
    requires PlusAsWritten(a, Compound(cs)) == Ok(Compound([a, Compound(cs)]))
    ensures var nested := Sem(t, Compound([a, Compound(cs)]));
      PackWith(nested, obj, vs) == Compounds.CompoundPack(SemAll(t, [a] + cs), obj, vs)
      && UnpackWith(nested, obj, bs) == Compounds.CompoundUnpack(SemAll(t, [a] + cs), obj, bs)
  {
    var sa := Sem(t, a);
    var ds := SemAll(t, cs);
    assert SemAll(t, [a, Compound(cs)]) == [sa, Compounds.CompoundCodec(ds)];
    assert SemAll(t, [a] + cs) == [sa] + ds;
    NestedPacksLikeFlat(sa, ds, obj, vs);
    NestedUnpacksLikeFlat(sa, ds, obj, bs);
  }

  // ---- the compound object ----

  /** `CompoundSerializer` of serializers.py: `size` starts at 0, `pack`
    * leaves it alone (serializers.py:415-422), and `unpack`/`unpack_from`
    * set it to what they consumed (serializers.py:448-464). */
  class EarlyCompoundSerializer {
    const serializers: seq<Codec>
    const numValues: nat
    var size: nat

    constructor (t: Structs.ActionTable, children: seq<ESer>)
      ensures serializers == SemAll(t, children) && numValues == SumNumValuesOf(children) && size == 0
    {
      serializers := SemAll(t, children);
      SemAllSums(t, children);
      numValues := SumNumValuesOf(children);
      size := 0;
    }

    method Pack(values: seq<Value>) returns (r: Result<seq<byte>>)
      ensures var spec := Compounds.CompoundPack(serializers, NoneValue, values);
        (spec.Err? ==> r == Err(spec.error)) && (spec.Ok? ==> r == Ok(spec.value.data))
    {
      var packed := Compounds.PackChildren(serializers, NoneValue, values);
      if packed.Err? {
        return Err(packed.error);
      }
      return Ok(packed.value.data);
    }

    method Unpack(buffer: seq<byte>) returns (r: Result<seq<Value>>)
      modifies this
      ensures var spec := Compounds.CompoundUnpack(serializers, NoneValue, buffer);
        (spec.Err? ==> r == Err(spec.error) && size == old(size))
        && (spec.Ok? ==> r == Ok(spec.value.values) && size == spec.value.size)
    {
      var unpacked := Compounds.UnpackChildren(serializers, NoneValue, buffer);
      if unpacked.Err? {
        return Err(unpacked.error);
      }
      size := unpacked.value.size;
      return Ok(unpacked.value.values);
    }

    method UnpackFrom(buffer: seq<byte>, offset: nat) returns (r: Result<seq<Value>>)
      modifies this
      ensures var spec := Compounds.CompoundUnpackFrom(serializers, NoneValue, buffer, offset);
        (spec.Err? ==> r == Err(spec.error) && size == old(size))
        && (spec.Ok? ==> r == Ok(spec.value.values) && size == spec.value.size)
    {
      var unpacked := Compounds.UnpackChildrenFrom(serializers, NoneValue, buffer, offset);
      if unpacked.Err? {
        return Err(unpacked.error);
      }
      size := unpacked.value.size;
      return Ok(unpacked.value.values);
    }
  }
}
