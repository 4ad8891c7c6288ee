/** The second generation's class construction, structured/structured.py: an
  * annotation walk like the first generation's, a format folded pairwise
  * with `fold_overlaps`, and the format of a derived class merged with its
  * base class's.
  *
  * The format `compute_format` folds starts with the byte-order character.
  * That character is not a digit, so the pattern of `fold_overlaps` keeps
  * it in its prelude, and it is no field's character, so it never overlaps:
  * folding `marker + f1` with `f2` gives `marker + fold(f1, f2)`. The model
  * therefore folds the fields alone and adds the marker with `WithMarker`. */
module EarlyStructured {
  import opened Outcomes
  import opened Values
  import opened ByteOrders
  import opened PyStruct
  import Structs
  import Records
  import EarlySerializers
  import FirstStructured

  // ---- fold_overlaps ----

  /** The index of the first item written with a count, `|f|` when none is. */
  function FirstCounted(f: Format): (r: nat)
    ensures r <= |f|
    ensures forall i :: 0 <= i < r ==> f[i].count.None?
    ensures r < |f| ==> f[r].count.Some?
    decreases |f|
  {
    if |f| == 0 then 0
    else if f[0].count.Some? then 0
    else
      var k := FirstCounted(f[1..]);
      assert forall i :: 1 <= i < k + 1 ==> f[i] == f[1..][i - 1];
      k + 1
  }

  /** `fold_overlaps` as written (structured/structured.py:76-102). The
    * pattern `(.*?)(\d+)\D` is anchored at the start only, so it matches the
    * first count of `f1`, wherever it is: the prelude is everything before
    * it, and everything after it up to the overlap is lost. Without any
    * count the prelude is `f1` less its last character and the count 1. */
  function MidFoldAsWritten(f1: Format, f2: Format): (r: Format)
    ensures |f1| == 0 ==> r == f2
    ensures |f2| == 0 ==> r == f1
    ensures !EarlySerializers.EarlyOverlaps(f1, f2, false) ==> r == f1 + f2
  {
    if !EarlySerializers.EarlyOverlaps(f1, f2, false) then f1 + f2
    else
      var j := FirstCounted(f1);
      if j == |f1| then f1[..|f1| - 1] + [Item(Some(2), f2[0].spec)] + f2[1..]
      else f1[..j] + [Item(Some(f1[j].count.value + 1), f2[0].spec)] + f2[1..]
  }

  /** Where the first count of `f1` is on its last item (or there is none),
    * the pattern reads the right count and the fold is the end-anchored
    * fold of structured/serializers.py. */
  lemma {:induction false} MidFoldAgrees(f1: Format, f2: Format)
    requires |f1| == 0 || FirstCounted(f1) >= |f1| - 1
    ensures MidFoldAsWritten(f1, f2) == EarlySerializers.EarlyFold(f1, f2, false)
  {
    if EarlySerializers.EarlyOverlaps(f1, f2, false) {
      var j := FirstCounted(f1);
      var last := f1[|f1| - 1];
      var merged := Item(Some(Count(last) + 1), f2[0].spec);
      assert Structs.Merged(last, f2[0]) == merged;
      assert EarlySerializers.EarlyFold(f1, f2, false) == f1[..|f1| - 1] + [merged] + f2[1..];
      if j == |f1| {
        assert last.count.None? && Count(last) == 1;
      } else {
        assert j == |f1| - 1 && f1[j] == last;
      }
    }
  }

  /** When an earlier item has the first count, the pattern's prelude stops
    * there: the fold drops every item from that one to the overlap. */
  lemma {:induction false} MidFoldDrops(f1: Format, f2: Format)
    requires EarlySerializers.EarlyOverlaps(f1, f2, false) && FirstCounted(f1) < |f1| - 1
    ensures |MidFoldAsWritten(f1, f2)| == FirstCounted(f1) + |f2|
    ensures |MidFoldAsWritten(f1, f2)| < |EarlySerializers.EarlyFold(f1, f2, false)|
  {
  }

  /** The documented example `'h10q' + 'qhi'` gives `'h11qhi'`; but
    * `'2xb' + 'b'` gives `'3b'`, three values and three bytes where the two
    * pads and two bytes `'2x2b'` were meant. */
  lemma {:induction false} MidFoldExamples()
    ensures var h, q, i := Item(None, 'h'), Item(None, 'q'), Item(None, 'i');
      MidFoldAsWritten([h, Item(Some(10), 'q')], [q, h, i]) == [h, Item(Some(11), 'q'), h, i]
    ensures var b := Item(None, 'b');
      MidFoldAsWritten([Item(Some(2), 'x'), b], [b]) == [Item(Some(3), 'b')]
      && EarlySerializers.EarlyFold([Item(Some(2), 'x'), b], [b], false) == [Item(Some(2), 'x'), Item(Some(2), 'b')]
  {
    var h, q, i := Item(None, 'h'), Item(None, 'q'), Item(None, 'i');
    var f1 := [h, Item(Some(10), 'q')];
    assert f1[1..] == [Item(Some(10), 'q')];
    assert FirstCounted(f1) == 1;
    assert f1[..1] == [h] && [q, h, i][1..] == [h, i];
    var b := Item(None, 'b');
    var g := [Item(Some(2), 'x'), b];
    assert FirstCounted(g) == 0;
    assert g[..0] == [] && g[..1] == [Item(Some(2), 'x')] && [b][1..] == [];
  }

  /** The two folds of `'2xb' + 'b'` differ in what they read: `'3b'` is
    * three bytes and three values, `'2x2b'` four bytes and two values. */
  lemma {:induction false} PadFoldSizes()
    ensures CalcSize([Item(Some(3), 'b')]) == 3 && NumValues([Item(Some(3), 'b')]) == 3
    ensures CalcSize([Item(Some(2), 'x'), Item(Some(2), 'b')]) == 4
      && NumValues([Item(Some(2), 'x'), Item(Some(2), 'b')]) == 2
  {
    var three := [Item(Some(3), 'b')];
    Structs.ExpandSingle(three[0]);
    assert Expand(three) == [Signed(1), Signed(1), Signed(1)];
    var four := [Item(Some(2), 'x'), Item(Some(2), 'b')];
    assert Expand(four) == [PadByte, PadByte, Signed(1), Signed(1)] by {
      assert four[1..] == [Item(Some(2), 'b')] && four[1..][1..] == [];
    }
    assert [PadByte, PadByte, Signed(1), Signed(1)][1..] == [PadByte, Signed(1), Signed(1)];
    assert [PadByte, Signed(1), Signed(1)][1..] == [Signed(1), Signed(1)];
  }

  // ---- compute_format ----

  /** `reduce(fold_overlaps, fmts)` over the field formats, each one a
    * format of one item, from the formats folded so far; the model folds
    * with the end-anchored fold. */
  function FoldAll(acc: Format, items: seq<Item>): (r: Format)
    decreases |items|
  {
    if |items| == 0 then acc
    else FoldAll(EarlySerializers.EarlyFold(acc, [items[0]], false), items[1..])
  }

  /** The same reduction with `fold_overlaps` as written. */
  function FoldAllAsWritten(acc: Format, items: seq<Item>): (r: Format)
    decreases |items|
  {
    if |items| == 0 then acc
    else FoldAllAsWritten(MidFoldAsWritten(acc, [items[0]]), items[1..])
  }

  /** The reduction keeps every declared field, in order. */
  lemma {:induction false} FoldAllLayout(acc: Format, items: seq<Item>)
    ensures Expand(FoldAll(acc, items)) == Expand(acc + items)
    decreases |items|
  {
    if |items| > 0 {
      var next := EarlySerializers.EarlyFold(acc, [items[0]], false);
      var tail := items[1..];
      assert FoldAll(acc, items) == FoldAll(next, tail);
      FoldAllLayout(next, tail);
      EarlySerializers.EarlyFoldLayout(acc, [items[0]]);
      ExpandAppend(next, tail);
      ExpandAppend(acc + [items[0]], tail);
      AppendHeadTail(acc, items);
    } else {
      assert acc + items == acc;
    }
  }

  /** A class with a pad before its first primitive fields: `pad[2]` and
    * two `int8` fields fold, as written, to `'3b'`, three values for two
    * attributes; the end-anchored fold gives `'2x2b'`, two values. */
  lemma {:induction false} PadBeforeRepeatedField()
    ensures var pad2, b := Item(Some(2), 'x'), Item(None, 'b');
      FoldAllAsWritten([], [pad2, b, b]) == [Item(Some(3), 'b')]
      && FoldAll([], [pad2, b, b]) == [pad2, Item(Some(2), 'b')]
  {
    var pad2, b := Item(Some(2), 'x'), Item(None, 'b');
    assert [pad2, b, b][1..] == [b, b] && [b, b][1..] == [b] && [b][1..] == [];
    assert MidFoldAsWritten([], [pad2]) == [pad2];
    assert MidFoldAsWritten([pad2], [b]) == [pad2, b];
    MidFoldExamples();
    assert FoldAllAsWritten([], [pad2, b, b]) == FoldAllAsWritten([pad2], [b, b]);
    assert FoldAllAsWritten([pad2], [b, b]) == FoldAllAsWritten([pad2, b], [b]);
    assert FoldAllAsWritten([pad2, b], [b]) == FoldAllAsWritten([Item(Some(3), 'b')], []);
    assert EarlySerializers.EarlyFold([], [pad2], false) == [pad2];
    assert EarlySerializers.EarlyFold([pad2], [b], false) == [pad2, b];
    assert FoldAll([], [pad2, b, b]) == FoldAll([pad2], [b, b]);
    assert FoldAll([pad2], [b, b]) == FoldAll([pad2, b], [b]);
    assert FoldAll([pad2, b], [b]) == FoldAll([pad2, Item(Some(2), 'b')], []);
  }

  /** `compute_format` (structured/structured.py:105-141), the fields folded
    * with the end-anchored fold. */
  function MidLayout(members: seq<FirstStructured.Member>, bo: ByteOrder): (r: Result<FirstStructured.Layout>)
  {
    var c := FirstStructured.Collect(members);
    if c.Err? then Err(c.error) else Ok(FirstStructured.Layout(bo, FoldAll([], c.value.0), c.value.1))
  }

  method ComputeFormat(members: seq<FirstStructured.Member>, bo: ByteOrder) returns (r: Result<FirstStructured.Layout>)
    ensures r == MidLayout(members, bo)
  {
    var c := FirstStructured.CollectMembers(members);
    if c.Err? {
      return Err(c.error);
    }
    return Ok(FirstStructured.Layout(bo, FoldAll([], c.value.0), c.value.1));
  }

  /** A layout a class can be packed and unpacked with: its fields are
    * struct characters, there is one value per attribute, and no attribute
    * is named twice. */
  predicate ValidLayout(l: FirstStructured.Layout)
  {
    ValidFormat(l.fmt) && NumValues(l.fmt) == |l.attrs| && Records.Distinct(l.attrs)
  }

  lemma {:induction false} FoldAllValid(acc: Format, items: seq<Item>)
    requires ValidFormat(acc) && ValidFormat(items)
    ensures ValidFormat(FoldAll(acc, items))
    decreases |items|
  {
    if |items| > 0 {
      var next := EarlySerializers.EarlyFold(acc, [items[0]], false);
      EarlyFoldValid(acc, [items[0]]);
      assert ValidFormat(items[1..]) by {
        forall i | 0 <= i < |items[1..]| ensures IsStructChar(items[1..][i].spec) {
          assert items[1..][i] == items[i + 1];
        }
      }
      FoldAllValid(next, items[1..]);
    }
  }

  /** Folding keeps the format's characters. */
  lemma {:induction false} EarlyFoldValid(f1: Format, f2: Format)
    requires ValidFormat(f1) && ValidFormat(f2)
    ensures ValidFormat(EarlySerializers.EarlyFold(f1, f2, false))
  {
    var r := EarlySerializers.EarlyFold(f1, f2, false);
    if EarlySerializers.EarlyOverlaps(f1, f2, false) {
      forall i | 0 <= i < |r| ensures IsStructChar(r[i].spec) {
        if i < |f1| - 1 {
          assert r[i] == r[..|f1| - 1][i] == f1[..|f1| - 1][i] == f1[i];
        } else if i >= |f1| {
          assert r[i] == r[|f1|..][i - |f1|] == f2[1..][i - |f1|] == f2[i - |f1| + 1];
        }
      }
    } else {
      assert forall i :: |f1| <= i < |r| ==> r[i] == f2[i - |f1|];
    }
  }

  lemma {:induction false} CollectValid(members: seq<FirstStructured.Member>)
    requires FirstStructured.FieldHints(members)
    ensures FirstStructured.Collect(members).Ok? ==> ValidFormat(FirstStructured.Collect(members).value.0)
    decreases |members|
  {
    if |members| > 0 {
      assert FirstStructured.FieldHint(members[0].hint);
      assert FirstStructured.FieldHints(members[1..]) by {
        forall i | 0 <= i < |members[1..]| ensures FirstStructured.FieldHint(members[1..][i].hint) {
          assert members[1..][i] == members[i + 1];
        }
      }
      CollectValid(members[1..]);
    }
  }

  /** Every class `compute_format` accepts, with format-type annotations
    * under distinct names, gets a valid layout. */
  lemma {:induction false} MidLayoutValid(members: seq<FirstStructured.Member>, bo: ByteOrder)
    requires FirstStructured.FieldHints(members) && Records.Distinct(FirstStructured.Names(members))
    ensures MidLayout(members, bo).Ok? ==>
      (ValidLayout(MidLayout(members, bo).value)
       && MidLayout(members, bo).value.attrs == FirstStructured.AttrNames(members))
  {
    FirstStructured.CollectResult(members);
    FirstStructured.AttrNamesDistinct(members);
    if FirstStructured.Collect(members).Ok? {
      var items := FirstStructured.Collect(members).value.0;
      FoldAllLayout([], items);
      assert [] + items == items;
      CollectValid(members);
      FoldAllValid([], items);
    }
  }

  // ---- merging with the base class ----

  /** `extract_byte_order` (structured/structured.py:359-374): the empty
    * format and a format without a leading byte-order character have the
    * default order; otherwise the character is split off. This is
    * `split_byte_order`, so the model uses `Structs.SplitByteOrder`. */
  lemma {:induction false} ExtractByteOrder(bo: ByteOrder, f: Format)
    requires ValidFormat(f)
    ensures Structs.SplitByteOrder([]) == (Default, [])
    ensures Structs.SplitByteOrder(Structs.WithMarker(bo, f)) == (bo, f)
  {
    Structs.SplitWithMarker(bo, f);
  }

  /** `merge_formats` (structured/structured.py:317-357): in STRICT mode
    * byte orders that differ are a ValueError; otherwise the two formats
    * without their markers are folded and the derived class's order is put
    * in front. */
  function MergeFormats(base: Format, derived: Format, mode: ByteOrderMode): (r: Result<Format>)
    ensures r.Err? <==> mode == Strict && Structs.SplitByteOrder(base).0 != Structs.SplitByteOrder(derived).0
    ensures r.Err? ==> r.error == ValueError
    ensures r.Ok? ==> r.value == Structs.WithMarker(Structs.SplitByteOrder(derived).0,
      EarlySerializers.EarlyFold(Structs.SplitByteOrder(base).1, Structs.SplitByteOrder(derived).1, false))
  {
    var (baseOrder, baseFmt) := Structs.SplitByteOrder(base);
    var (derivedOrder, derivedFmt) := Structs.SplitByteOrder(derived);
    if mode == Strict && baseOrder != derivedOrder then Err(ValueError)
    else Ok(Structs.WithMarker(derivedOrder, EarlySerializers.EarlyFold(baseFmt, derivedFmt, false)))
  }

  /** Some name is in both lists. */
  predicate SharesName(a: seq<string>, b: seq<string>)
  {
    exists i, j :: 0 <= i < |a| && 0 <= j < |b| && a[i] == b[j]
  }

  /** `StructuredMeta.__new__` (structured/structured.py:255-299): the
    * class's own layout, then, with a `Structured` base class, the merged
    * format, and a SyntaxError for an attribute the base already has; the
    * attributes are the base's followed by the class's own. */
  function NewClass(members: seq<FirstStructured.Member>, bo: ByteOrder, mode: ByteOrderMode,
                    base: Option<FirstStructured.Layout>): (r: Result<FirstStructured.Layout>)
    ensures FirstStructured.Collect(members).Err? ==> r == Err(FirstStructured.Collect(members).error)
    ensures base.None? ==> r == MidLayout(members, bo)
  {
    var own := MidLayout(members, bo);
    if own.Err? || base.None? then own
    else
      var b := base.value;
      var merged := MergeFormats(Structs.WithMarker(b.byteOrder, b.fmt),
                                 Structs.WithMarker(bo, own.value.fmt), mode);
      if merged.Err? then Err(merged.error)
      else if SharesName(own.value.attrs, b.attrs) then Err(SyntaxError)
      else
        var (order, fmt) := Structs.SplitByteOrder(merged.value);
        Ok(FirstStructured.Layout(order, fmt, b.attrs + own.value.attrs))
  }

  /** Deriving from a valid base: STRICT mode refuses a different byte
    * order, a repeated attribute is a SyntaxError, and otherwise the class
    * has the derived order, the base's fields followed by its own, and the
    * base's attributes followed by its own, so it is valid again. */
  lemma {:induction false} NewClassDerived(members: seq<FirstStructured.Member>, bo: ByteOrder, mode: ByteOrderMode,
                        b: FirstStructured.Layout)
    requires ValidLayout(b)
    requires FirstStructured.FieldHints(members) && Records.Distinct(FirstStructured.Names(members))
    requires MidLayout(members, bo).Ok?
    ensures var own := MidLayout(members, bo).value;
      var r := NewClass(members, bo, mode, Some(b));
      (mode == Strict && b.byteOrder != bo ==> r == Err(ValueError))
      && ((mode == Override || b.byteOrder == bo) && SharesName(own.attrs, b.attrs) ==> r == Err(SyntaxError))
      && ((mode == Override || b.byteOrder == bo) && !SharesName(own.attrs, b.attrs) ==>
        r.Ok? && ValidLayout(r.value) && r.value.byteOrder == bo
        && Expand(r.value.fmt) == Expand(b.fmt + own.fmt) && r.value.attrs == b.attrs + own.attrs)
  {
    var own := MidLayout(members, bo).value;
    MidLayoutValid(members, bo);
    Structs.SplitWithMarker(b.byteOrder, b.fmt);
    Structs.SplitWithMarker(bo, own.fmt);
    var folded := EarlySerializers.EarlyFold(b.fmt, own.fmt, false);
    EarlyFoldValid(b.fmt, own.fmt);
    Structs.SplitWithMarker(bo, folded);
    EarlySerializers.EarlyFoldLayout(b.fmt, own.fmt);
    FormatAppend(b.fmt, own.fmt);
    var attrs := b.attrs + own.attrs;
    if !SharesName(own.attrs, b.attrs) {
      forall i, j | 0 <= i < j < |attrs| ensures attrs[i] != attrs[j] {
        if j < |b.attrs| {
        } else if i >= |b.attrs| {
          assert attrs[i] == own.attrs[i - |b.attrs|] && attrs[j] == own.attrs[j - |b.attrs|];
        } else {
          assert attrs[i] == b.attrs[i] && attrs[j] == own.attrs[j - |b.attrs|];
        }
      }
    }
  }
}
