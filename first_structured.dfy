/** The first generation, structured.py: a class's annotations become one
  * struct format, consecutive equal field formats folded by `groupby`, and
  * the names of the attributes its values are assigned to.
  *
  * The format string `compute_format` joins starts with the byte-order
  * character, which is never equal to a field's format and so forms a group
  * of its own; the model keeps it apart as the layout's byte order, the
  * struct being `WithMarker(byteOrder, fmt)`. */
module FirstStructured {
  import opened Outcomes
  import opened Values
  import opened ByteOrders
  import opened PyStruct
  import Structs
  import Records

  // ---- annotations ----

  /** What `compute_format` sees in one annotation: a `ClassVar`, a
    * `format_type` subclass (its format, and whether it is a `pad`), or
    * anything else. */
  datatype Hint = ClassVarHint | FormatHint(item: Item, isPad: bool) | OtherHint

  datatype Member = Member(name: string, hint: Hint)

  /** The format types of structured.py: a primitive with an uncounted
    * format, or `char[n]`, `pascal[n]` or `pad[n]` with `n >= 1`; pads are
    * the `'x'` formats. */
  predicate FieldHint(h: Hint)
  {
    h.FormatHint? ==>
      IsStructChar(h.item.spec) && (h.isPad <==> h.item.spec == 'x')
      && (h.item.count.Some? ==> h.item.count.value >= 1 && (IsStringChar(h.item.spec) || h.item.spec == 'x'))
  }

  predicate FieldHints(members: seq<Member>)
  {
    forall i :: 0 <= i < |members| ==> FieldHint(members[i].hint)
  }

  /** `counted.__class_getitem__` (structured.py:128-137, and the same rule
    * at structured/structured.py:148-157 and structured/base_types.py:131-143):
    * `base[count]` has the format `f'{count}{base}'`. */
  function Counted(base: char, count: Structs.Factor): (r: Result<Item>)
    ensures count.NotInt? ==> r == Err(TypeError)
    ensures count.IntFactor? && count.n <= 0 ==> r == Err(ValueError)
    ensures count.IntFactor? && count.n > 0 ==> r == Ok(Item(Some(count.n), base))
  {
    match count
    case NotInt => Err(TypeError)
    case IntFactor(n) => if n <= 0 then Err(ValueError) else Ok(Item(Some(n), base))
  }

  /** `pad[2]` is the format `'2x'`, packing two zero bytes and no value; a
    * zero count and a non-integer are refused. */
  lemma {:induction false} CountedPad()
    ensures Counted('x', Structs.IntFactor(2)) == Ok(Item(Some(2), 'x'))
    ensures CalcSize([Item(Some(2), 'x')]) == 2 && NumValues([Item(Some(2), 'x')]) == 0
    ensures Counted('x', Structs.IntFactor(0)) == Err(ValueError)
    ensures Counted('s', Structs.NotInt) == Err(TypeError)
  {
    assert Expand([Item(Some(2), 'x')]) == [PadByte, PadByte] by {
      assert [Item(Some(2), 'x')][1..] == [];
    }
  }

  // ---- collecting the formats and the attribute names ----

  /** A member whose name starts with `_` is private. An empty name cannot
    * be indexed. */
  function Visibility(name: string): (r: Result<bool>)
    ensures r.Err? <==> |name| == 0
    ensures r.Ok? ==> (r.value <==> name[0] != '_')
  {
    if |name| == 0 then Err(IndexError) else Ok(name[0] != '_')
  }

  /** One member's part: a ClassVar adds nothing, a format type adds its
    * format and, unless it is a pad, its name; any other annotation is a
    * TypeError on a public member and ignored on a private one. */
  function MemberPart(m: Member): (r: Result<(seq<Item>, seq<string>)>)
    ensures m.hint.ClassVarHint? ==> r == Ok(([], []))
    ensures m.hint.FormatHint? ==> r == Ok(([m.hint.item], if m.hint.isPad then [] else [m.name]))
    ensures m.hint.OtherHint? && |m.name| > 0 && m.name[0] != '_' ==> r == Err(TypeError)
    ensures m.hint.OtherHint? && |m.name| > 0 && m.name[0] == '_' ==> r == Ok(([], []))
  {
    match m.hint
    case ClassVarHint => Ok(([], []))
    case FormatHint(item, isPad) => Ok(([item], if isPad then [] else [m.name]))
    case OtherHint =>
      var v := Visibility(m.name);
      if v.Err? then Err(v.error)
      else if v.value then Err(TypeError)
      else Ok(([], []))
  }

  /** The parts collected so far, followed by the rest. */
  function Prepend(items: seq<Item>, names: seq<string>, rest: Result<(seq<Item>, seq<string>)>): Result<(seq<Item>, seq<string>)>
  {
    if rest.Err? then rest else Ok((items + rest.value.0, names + rest.value.1))
  }

  lemma {:induction false} PrependAssoc(a: seq<Item>, b: seq<string>, c: seq<Item>, d: seq<string>, rest: Result<(seq<Item>, seq<string>)>)
    ensures Prepend(a, b, Prepend(c, d, rest)) == Prepend(a + c, b + d, rest)
    ensures Prepend([], [], rest) == rest
  {
    if rest.Ok? {
      assert (a + c) + rest.value.0 == a + (c + rest.value.0);
      assert (b + d) + rest.value.1 == b + (d + rest.value.1);
      assert [] + rest.value.0 == rest.value.0 && [] + rest.value.1 == rest.value.1;
    }
  }

  /** The lists `fmts[1:]` and `attrs` the loop of `compute_format` builds,
    * the first refused member stopping it. */
  function Collect(members: seq<Member>): (r: Result<(seq<Item>, seq<string>)>)
    decreases |members|
  {
    if |members| == 0 then Ok(([], []))
    else
      var head := MemberPart(members[0]);
      if head.Err? then Err(head.error)
      else Prepend(head.value.0, head.value.1, Collect(members[1..]))
  }

  /** The names of the members that contribute an attribute. */
  function AttrNames(members: seq<Member>): (r: seq<string>)
    decreases |members|
  {
    if |members| == 0 then []
    else
      (if members[0].hint.FormatHint? && !members[0].hint.isPad then [members[0].name] else [])
        + AttrNames(members[1..])
  }

  function Names(members: seq<Member>): (r: seq<string>)
    ensures |r| == |members| && forall i :: 0 <= i < |members| ==> r[i] == members[i].name
  {
    if |members| == 0 then [] else [members[0].name] + Names(members[1..])
  }

  /** Collecting fails exactly on a public member of another type (or a
    * nameless one); otherwise the attributes are the names of the non-pad
    * format members, in order, and the format has one value per attribute. */
  lemma {:induction false} CollectResult(members: seq<Member>)
    ensures Collect(members).Err? <==>
      exists i :: 0 <= i < |members| && members[i].hint.OtherHint?
        && (|members[i].name| == 0 || members[i].name[0] != '_')
    ensures Collect(members).Ok? ==> Collect(members).value.1 == AttrNames(members)
    ensures Collect(members).Ok? && FieldHints(members) ==>
      NumValues(Collect(members).value.0) == |Collect(members).value.1|
    decreases |members|
  {
    if |members| > 0 {
      var m := members[0];
      CollectResult(members[1..]);
      assert forall i :: 1 <= i < |members| ==> members[i] == members[1..][i - 1];
      var head := MemberPart(m);
      if head.Ok? && Collect(members).Ok? {
        var rest := Collect(members[1..]).value;
        FormatAppend(head.value.0, rest.0);
        if FieldHints(members) {
          assert FieldHint(m.hint);
          assert FieldHints(members[1..]) by {
            forall i | 0 <= i < |members[1..]| ensures FieldHint(members[1..][i].hint) {
              assert members[1..][i] == members[i + 1];
            }
          }
          if m.hint.FormatHint? {
            ItemValues(m.hint.item);
          }
        }
      }
    }
  }

  /** A field format stands for one value, a pad for none. */
  lemma {:induction false} ItemValues(it: Item)
    requires FieldHint(FormatHint(it, it.spec == 'x'))
    ensures NumValues([it]) == if it.spec == 'x' then 0 else 1
  {
    Structs.ExpandSingle(it);
    if !IsStringChar(it.spec) {
      assert it.count.None? || it.spec == 'x';
      if it.spec == 'x' {
        PadsHaveNoValues(Count(it));
      } else {
        var c := it.spec;
        assert c in StructChars;
        assert c == 'c' || c == 'b' || c == 'B' || c == '?' || c == 'h' || c == 'H' || c == 'i' || c == 'I'
          || c == 'l' || c == 'L' || c == 'q' || c == 'Q' || c == 'n' || c == 'N' || c == 'e' || c == 'f'
          || c == 'd' || c == 'P';
        assert HasValue(UnitOf(c));
        assert ExpandItem(it) == [UnitOf(c)];
        assert [UnitOf(c)][1..] == [];
      }
    } else if it.spec == 's' {
      assert ExpandItem(it) == [Str(Count(it))];
      assert [Str(Count(it))][1..] == [];
    } else {
      assert ExpandItem(it) == [Pascal(Count(it))];
      assert [Pascal(Count(it))][1..] == [];
      assert UnitsValues([Pascal(Count(it))]) == 1;
      assert NumValues([it]) == UnitsValues(ExpandItem(it));
    }
  }

  lemma {:induction false} PadsHaveNoValues(n: nat)
    ensures UnitsValues(Repeat(PadByte, n)) == 0
  {
    if n > 0 {
      assert Repeat(PadByte, n)[1..] == Repeat(PadByte, n - 1);
      PadsHaveNoValues(n - 1);
    }
  }

  /** Distinct member names (the keys of the annotations dictionary) give
    * distinct attribute names. */
  /** The tail of a list of distinct names is distinct and misses the head. */
  lemma {:induction false} DistinctTail(s: seq<string>)
    requires |s| > 0 && Records.Distinct(s)
    ensures Records.Distinct(s[1..]) && s[0] !in s[1..]
  {
    forall i, j | 0 <= i < j < |s[1..]| ensures s[1..][i] != s[1..][j] {
      assert s[1..][i] == s[i + 1] && s[1..][j] == s[j + 1];
    }
    forall k | 0 <= k < |s[1..]| ensures s[1..][k] != s[0] {
      assert s[1..][k] == s[k + 1];
    }
  }

  /** At most one new name in front of distinct names keeps them distinct. */
  lemma {:induction false} DistinctPrepend(h: seq<string>, t: seq<string>)
    requires |h| <= 1 && Records.Distinct(t) && (forall x :: x in h ==> x !in t)
    ensures Records.Distinct(h + t)
  {
    var r := h + t;
    forall i, j | 0 <= i < j < |r| ensures r[i] != r[j] {
      if |h| == 1 && i == 0 {
        assert r[i] == h[0] && r[j] == t[j - 1] && t[j - 1] in t;
      } else {
        assert r[i] == t[i - |h|] && r[j] == t[j - |h|];
      }
    }
  }

  lemma {:induction false} AttrNamesDistinct(members: seq<Member>)
    requires Records.Distinct(Names(members))
    ensures Records.Distinct(AttrNames(members))
    ensures forall a :: a in AttrNames(members) ==> a in Names(members)
    decreases |members|
  {
    if |members| > 0 {
      var tail := members[1..];
      var ns := Names(members);
      assert ns == [members[0].name] + Names(tail);
      assert Names(tail) == ns[1..];
      DistinctTail(ns);
      AttrNamesDistinct(tail);
      var h := if members[0].hint.FormatHint? && !members[0].hint.isPad then [members[0].name] else [];
      assert AttrNames(members) == h + AttrNames(tail);
      DistinctPrepend(h, AttrNames(tail));
    }
  }

  // ---- groupby ----

  /** A maximal run of one format repeated `count` times. */
  datatype Run = Run(item: Item, count: nat)

  /** `itertools.groupby(fmts)`: the formats as maximal runs of equal ones,
    * in order. */
  function Runs(items: seq<Item>): (r: seq<Run>)
    ensures |r| == 0 <==> |items| == 0
    ensures |r| > 0 ==> r[0].item == items[0]
    ensures forall i :: 0 <= i < |r| ==> r[i].count >= 1
    ensures forall i :: 0 < i < |r| ==> r[i - 1].item != r[i].item
    decreases |items|
  {
    if |items| == 0 then []
    else
      var rest := Runs(items[1..]);
      if |rest| > 0 && rest[0].item == items[0]
      then [Run(items[0], rest[0].count + 1)] + rest[1..]
      else [Run(items[0], 1)] + rest
  }

  /** The formats the runs stand for. */
  function Ungroup(runs: seq<Run>): (r: seq<Item>)
    decreases |runs|
  {
    if |runs| == 0 then [] else Repeat(runs[0].item, runs[0].count) + Ungroup(runs[1..])
  }

  /** The runs are exactly the formats, grouped. */
  lemma {:induction false} RunsUngroup(items: seq<Item>)
    ensures Ungroup(Runs(items)) == items
    decreases |items|
  {
    if |items| > 0 {
      RunsUngroup(items[1..]);
      var rest := Runs(items[1..]);
      if |rest| > 0 && rest[0].item == items[0] {
        var r := Runs(items);
        assert r[1..] == rest[1..];
        assert Ungroup(rest) == Repeat(rest[0].item, rest[0].count) + Ungroup(rest[1..]);
        assert Repeat(items[0], rest[0].count + 1) == [items[0]] + Repeat(items[0], rest[0].count);
        assert items == [items[0]] + items[1..];
      } else {
        assert Runs(items)[1..] == rest;
        assert Repeat(items[0], 1) == [items[0]];
        assert items == [items[0]] + items[1..];
      }
    }
  }

  // ---- folding the runs, as written ----

  function Pow10(k: nat): (r: nat)
    ensures r >= 1
  {
    if k == 0 then 1 else 10 * Pow10(k - 1)
  }

  /** How many decimal digits `n` is written with. */
  function Digits(n: nat): (r: nat)
    ensures r >= 1 && n < Pow10(r)
  {
    if n < 10 then 1 else 1 + Digits(n / 10)
  }

  /** `f'{count}{fmt}'`: the run's length written in front of the format,
    * in front of a count the format already has. */
  function Prefix(k: nat, it: Item): (r: Item)
    ensures r.spec == it.spec
    ensures it.count.None? ==> r.count == Some(k)
    ensures it.count.Some? ==> r.count == Some(k * Pow10(Digits(it.count.value)) + it.count.value)
  {
    if it.count.None? then Item(Some(k), it.spec)
    else Item(Some(k * Pow10(Digits(it.count.value)) + it.count.value), it.spec)
  }

  /** The comprehension of structured.py:115-121: one format per run, kept
    * as it is for a string format or a run of one, and prefixed with the
    * run's length otherwise. */
  function RunAsWritten(run: Run): (r: Item)
  {
    if IsStringChar(run.item.spec) || run.count == 1 then run.item else Prefix(run.count, run.item)
  }

  function FoldRunsAsWritten(runs: seq<Run>): (r: Format)
    ensures |r| == |runs|
    decreases |runs|
  {
    if |runs| == 0 then [] else [RunAsWritten(runs[0])] + FoldRunsAsWritten(runs[1..])
  }

  function GroupFoldAsWritten(items: seq<Item>): (r: Format)
  {
    FoldRunsAsWritten(Runs(items))
  }

  /** As written, two `char[5]` fields give the format `'5s'`: one value for
    * two attributes, so unpacking leaves the second unassigned and packing
    * two values is a struct error. */
  lemma {:induction false} StringRunCollapses()
    ensures var five := Item(Some(5), 's');
      GroupFoldAsWritten([five, five]) == [five] && NumValues([five]) == 1
      && NumValues(GroupFold([five, five])) == 2
  {
    var five := Item(Some(5), 's');
    assert [five, five][1..] == [five] && [five][1..] == [];
    assert Runs([five]) == [Run(five, 1)];
    assert Runs([five, five]) == [Run(five, 2)];
    assert FoldRunsAsWritten([Run(five, 2)]) == [five] by {
      assert [Run(five, 2)][1..] == [];
    }
    Structs.ExpandSingle(five);
    assert UnitsValues([Str(5)]) == 1 by { assert [Str(5)][1..] == []; }
    GroupFoldLayout([five, five]);
    assert Expand([five, five]) == [Str(5), Str(5)] by {
      assert Expand([five, five]) == ExpandItem(five) + Expand([five]);
    }
    assert UnitsValues([Str(5), Str(5)]) == 2 by {
      assert [Str(5), Str(5)][1..] == [Str(5)] && [Str(5)][1..] == [];
    }
  }

  /** As written, two `pad[2]` fields give `'22x'`: twenty-two pad bytes
    * where four were declared. */
  lemma {:induction false} PadRunConcatenatesCounts()
    ensures var two := Item(Some(2), 'x');
      GroupFoldAsWritten([two, two]) == [Item(Some(22), 'x')]
      && CalcSize(GroupFold([two, two])) == 4
  {
    var two := Item(Some(2), 'x');
    assert [two, two][1..] == [two] && [two][1..] == [];
    assert Runs([two]) == [Run(two, 1)];
    assert Runs([two, two]) == [Run(two, 2)];
    assert Digits(2) == 1 && Pow10(1) == 10;
    assert FoldRunsAsWritten([Run(two, 2)]) == [Item(Some(22), 'x')] by {
      assert [Run(two, 2)][1..] == [];
    }
    GroupFoldLayout([two, two]);
    assert Expand([two, two]) == [PadByte, PadByte, PadByte, PadByte] by {
      assert Expand([two, two]) == ExpandItem(two) + Expand([two]);
      Structs.ExpandSingle(two);
    }
    assert UnitsSize([PadByte, PadByte, PadByte, PadByte]) == 4;
  }

  // ---- folding the runs, corrected ----

  /** A run folded so that it keeps its fields: `k` uncounted primitives
    * become one counted item, anything else (strings, counted pads) is kept
    * repeated. */
  function FoldRun(run: Run): (r: Format)
    ensures Expand(r) == Expand(Repeat(run.item, run.count))
  {
    if run.count == 1 then
      assert Repeat(run.item, 1) == [run.item];
      [run.item]
    else if run.item.count.None? && !IsStringChar(run.item.spec) then
      RepeatUncounted(run.item.spec, run.count);
      Structs.ExpandSingle(Item(Some(run.count), run.item.spec));
      [Item(Some(run.count), run.item.spec)]
    else Repeat(run.item, run.count)
  }

  lemma {:induction false} RepeatUncounted(c: char, k: nat)
    requires !IsStringChar(c)
    ensures Expand(Repeat(Item(None, c), k)) == Repeat(UnitOf(c), k)
  {
    if k > 0 {
      RepeatUncounted(c, k - 1);
      assert Repeat(Item(None, c), k)[1..] == Repeat(Item(None, c), k - 1);
      assert ExpandItem(Item(None, c)) == [UnitOf(c)];
    }
  }

  function FoldRuns(runs: seq<Run>): (r: Format)
    decreases |runs|
  {
    if |runs| == 0 then [] else FoldRun(runs[0]) + FoldRuns(runs[1..])
  }

  /** The corrected fold of the field formats. */
  function GroupFold(items: seq<Item>): (r: Format)
  {
    FoldRuns(Runs(items))
  }

  lemma {:induction false} FoldRunsLayout(runs: seq<Run>)
    ensures Expand(FoldRuns(runs)) == Expand(Ungroup(runs))
    decreases |runs|
  {
    if |runs| > 0 {
      FoldRunsLayout(runs[1..]);
      ExpandAppend(FoldRun(runs[0]), FoldRuns(runs[1..]));
      ExpandAppend(Repeat(runs[0].item, runs[0].count), Ungroup(runs[1..]));
    }
  }

  /** The corrected fold describes exactly the declared fields, so it packs
    * the same bytes and values as the unfolded formats. */
  lemma {:induction false} GroupFoldLayout(items: seq<Item>)
    ensures Expand(GroupFold(items)) == Expand(items)
    ensures CalcSize(GroupFold(items)) == CalcSize(items) && NumValues(GroupFold(items)) == NumValues(items)
  {
    FoldRunsLayout(Runs(items));
    RunsUngroup(items);
  }

  /** The runs that fold the same both ways: a single format, or several
    * uncounted primitives. */
  predicate PlainRun(run: Run)
  {
    run.count == 1 || (run.item.count.None? && !IsStringChar(run.item.spec))
  }

  lemma {:induction false} FoldRunsAgree(runs: seq<Run>)
    requires forall i :: 0 <= i < |runs| ==> PlainRun(runs[i])
    ensures FoldRunsAsWritten(runs) == FoldRuns(runs)
    decreases |runs|
  {
    if |runs| > 0 {
      assert PlainRun(runs[0]);
      FoldRunsAgree(runs[1..]);
    }
  }

  /** The comprehension is right for every class whose repeated fields are
    * plain primitives, and wrong as soon as a string or counted pad field
    * repeats: then it gives one item where the fields need several. */
  lemma {:induction false} GroupFoldAgrees(items: seq<Item>)
    ensures (forall i :: 0 <= i < |Runs(items)| ==> PlainRun(Runs(items)[i])) ==>
      GroupFoldAsWritten(items) == GroupFold(items)
    ensures (exists i :: 0 <= i < |Runs(items)| && !PlainRun(Runs(items)[i])) ==>
      |GroupFoldAsWritten(items)| < |GroupFold(items)|
  {
    var runs := Runs(items);
    if forall i :: 0 <= i < |runs| ==> PlainRun(runs[i]) {
      FoldRunsAgree(runs);
    }
    FoldRunsLength(runs);
  }

  lemma {:induction false} FoldRunsLength(runs: seq<Run>)
    requires forall i :: 0 <= i < |runs| ==> runs[i].count >= 1
    ensures |FoldRuns(runs)| >= |runs|
    ensures (exists i :: 0 <= i < |runs| && !PlainRun(runs[i])) ==> |FoldRuns(runs)| > |runs|
    decreases |runs|
  {
    if |runs| > 0 {
      FoldRunsLength(runs[1..]);
      if exists i :: 0 <= i < |runs| && !PlainRun(runs[i]) {
        var i :| 0 <= i < |runs| && !PlainRun(runs[i]);
        if i > 0 {
          assert runs[1..][i - 1] == runs[i];
        }
      }
    }
  }

  // ---- compute_format ----

  /** The struct and attribute names of a class. */
  datatype Layout = Layout(byteOrder: ByteOrder, fmt: Format, attrs: seq<string>)

  /** `compute_format`, with the corrected fold. */
  function FirstLayout(members: seq<Member>, bo: ByteOrder): (r: Result<Layout>)
  {
    var c := Collect(members);
    if c.Err? then Err(c.error) else Ok(Layout(bo, GroupFold(c.value.0), c.value.1))
  }

  /** A class the first generation accepts has one value per attribute, and
    * distinct attributes, so its instances can be packed and unpacked. */
  lemma {:induction false} FirstLayoutValid(members: seq<Member>, bo: ByteOrder)
    requires FieldHints(members) && Records.Distinct(Names(members))
    ensures FirstLayout(members, bo).Ok? ==>
      var l := FirstLayout(members, bo).value;
      NumValues(l.fmt) == |l.attrs| && Records.Distinct(l.attrs)
      && l.attrs == AttrNames(members) && l.byteOrder == bo
  {
    CollectResult(members);
    AttrNamesDistinct(members);
    if Collect(members).Ok? {
      GroupFoldLayout(Collect(members).value.0);
    }
  }

  /** The loop of `compute_format` (structured.py:101-114, the same loop as
    * structured/structured.py:121-136): `fmts` and `attrs` appended to
    * member by member, the first refused member raising. */
  method CollectMembers(members: seq<Member>) returns (r: Result<(seq<Item>, seq<string>)>)
    ensures r == Collect(members)
  {
    var fmts: seq<Item> := [];
    var attrs: seq<string> := [];
    var i := 0;
    assert members[0..] == members;
    PrependAssoc([], [], [], [], Collect(members));
    while i < |members|
      invariant 0 <= i <= |members|
      invariant Collect(members) == Prepend(fmts, attrs, Collect(members[i..]))
    {
      assert members[i..][0] == members[i] && members[i..][1..] == members[i + 1..];
      var m := members[i];
      var part := MemberPart(m);
      if part.Ok? {
        PrependAssoc(fmts, attrs, part.value.0, part.value.1, Collect(members[i + 1..]));
      }
      match m.hint {
        case ClassVarHint =>
        case FormatHint(item, isPad) =>
          fmts := fmts + [item];
          if !isPad {
            attrs := attrs + [m.name];
          }
        case OtherHint =>
          if |m.name| == 0 {
            return Err(IndexError);
          }
          if m.name[0] != '_' {
            return Err(TypeError);
          }
      }
      i := i + 1;
    }
    assert members[i..] == [];
    assert fmts + [] == fmts && attrs + [] == attrs;
    return Ok((fmts, attrs));
  }

  /** `compute_format`: the collected formats, folded. */
  method ComputeFormat(members: seq<Member>, bo: ByteOrder) returns (r: Result<Layout>)
    ensures r == FirstLayout(members, bo)
  {
    var c := CollectMembers(members);
    if c.Err? {
      return Err(c.error);
    }
    return Ok(Layout(bo, GroupFold(c.value.0), c.value.1));
  }
}
