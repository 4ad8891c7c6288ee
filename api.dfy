/** The composition layer of structured/serializers/api.py: the serializer
  * kinds as values, Python's `+` protocol between them, flattening into
  * `CompoundSerializer`, finality and preprocessing. */
module Api {
  import opened Outcomes
  import opened Values
  import opened ByteOrders
  import opened PyStruct
  import opened Structs

  /** A serializer as far as `+` can tell them apart.  `Other` is any other
    * serializer class (arrays, strings, unions, ...), which inherits the base
    * class's `__add__`; it is named by an id and carries its `num_values`,
    * whether it is final and whether its class overrides `prepack` or
    * `preunpack`. */
  datatype Serializer =
    | Null
    | Struct(st: StructSer)
    | Action(act: ActionSer)
    | Compound(serializers: seq<Serializer>)
    | Other(id: nat, numValues: nat, final: bool, preprocesses: bool)

  /** The right operand of `+`: a serializer or some other Python object. */
  datatype Operand = Ser(s: Serializer) | NotSerializer

  function NumValuesOf(s: Serializer): nat
    decreases s, 1
  {
    match s
    case Null => 0
    case Struct(st) => StructNumValues(st)
    case Action(a) => StructNumValues(a.st)
    case Compound(cs) => SumNumValues(cs)
    case Other(_, nv, _, _) => nv
  }

  /** `sum(serializer.num_values for serializer in serializers)`. */
  function SumNumValues(cs: seq<Serializer>): nat
    decreases cs, 0
  {
    if cs == [] then 0 else NumValuesOf(cs[0]) + SumNumValues(cs[1..])
  }

  lemma {:induction false} SumNumValuesAppend(a: seq<Serializer>, b: seq<Serializer>)
    ensures SumNumValues(a + b) == SumNumValues(a) + SumNumValues(b)
  {
    if a == [] {
      assert a + b == b;
    } else {
      assert (a + b)[1..] == a[1..] + b;
      SumNumValuesAppend(a[1..], b);
    }
  }

  /** `get_final` (api.py:167-171, 249-252): a compound answers with its first
    * child that is final. */
  function GetFinal(s: Serializer): (r: Option<Serializer>)
    ensures s.Compound? && r.Some? ==>
      (exists i :: 0 <= i < |s.serializers| && s.serializers[i] == r.value
         && IsFinal(r.value) && (forall j :: 0 <= j < i ==> !IsFinal(s.serializers[j])))
    ensures s.Compound? && r.None? ==> forall c :: c in s.serializers ==> !IsFinal(c)
    ensures (s.Null? || s.Struct? || s.Action?) ==> r.None?
    decreases s, 1
  {
    match s
    case Compound(cs) => FirstFinal(cs)
    case Other(_, _, final, _) => if final then Some(s) else None
    case _ => None
  }

  function FirstFinal(cs: seq<Serializer>): (r: Option<Serializer>)
    ensures r.Some? ==>
      (exists i :: 0 <= i < |cs| && cs[i] == r.value
         && IsFinal(r.value) && (forall j :: 0 <= j < i ==> !IsFinal(cs[j])))
    ensures r.None? ==> forall c :: c in cs ==> !IsFinal(c)
    decreases cs, 0
  {
    if cs == [] then None
    else if IsFinal(cs[0]) then Some(cs[0])
    else FirstFinal(cs[1..])
  }

  /** `is_final` (api.py:161-165). */
  predicate IsFinal(s: Serializer)
    decreases s, 2
  {
    match s
    case Compound(cs) => exists i :: 0 <= i < |cs| && IsFinalChild(cs[i])
    case Other(_, _, final, _) => final
    case _ => false
  }

  /** Finality of a compound's child, which is never itself a compound. */
  predicate IsFinalChild(c: Serializer)
  {
    c.Other? && c.final
  }

  /** No child is itself a compound: what the constructor's check enforces. */
  predicate Flat(cs: seq<Serializer>)
  {
    forall i :: 0 <= i < |cs| ==> !cs[i].Compound?
  }

  predicate WellFormed(s: Serializer)
  {
    s.Compound? ==> Flat(s.serializers)
  }

  /** The `CompoundSerializer` constructor (api.py:235-247). */
  function NewCompound(cs: seq<Serializer>): (r: Result<Serializer>)
    ensures r.Ok? <==> Flat(cs)
    ensures r.Ok? ==> r.value == Compound(cs) && NumValuesOf(r.value) == SumNumValues(cs)
    ensures r.Err? ==> r.error == TypeError
  {
    if Flat(cs) then Ok(Compound(cs)) else Err(TypeError)
  }

  /** Whether some child's class overrides `prepack` or `preunpack`
    * (api.py:243-247); only `Other` serializers here do. */
  predicate NeedsPreprocess(cs: seq<Serializer>)
  {
    exists i :: 0 <= i < |cs| && cs[i].Other? && cs[i].preprocesses
  }

  /** What `prepack`/`preunpack` of a compound return (api.py:254-264,
    * 381-382). */
  datatype Prepared =
    | Plain(compound: seq<Serializer>)
    | Specialized(origin: seq<Serializer>, partialObject: Value)

  function Preprocess(p: Prepared, obj: Value): (r: Prepared)
    ensures p.Specialized? ==> r == p
    ensures p.Plain? ==> (r.Specialized? <==> NeedsPreprocess(p.compound))
    ensures r.Plain? ==> r == p
  {
    match p
    case Plain(cs) => if NeedsPreprocess(cs) then Specialized(cs, obj) else p
    case Specialized(_, _) => p
  }

  // ---- the + protocol ----

  /** `x + y` for two serializers neither of which is a compound.  A struct
    * on the left of an action serializer goes to the action serializer's
    * `__radd__` first, because it is a subclass that overrides it. */
  function AddSimple(x: Serializer, y: Serializer): (r: Result<Serializer>)
    requires !x.Compound? && !y.Compound?
    ensures r.Ok? && r.value.Compound? ==> r.value.serializers == [x, y]
    ensures r.Ok? && x != Null ==> r.value != Null
    ensures y == Null ==> r == Ok(x)
    ensures x == Null ==> r == Ok(y)
  {
    match x
    case Null => Ok(y)
    case Struct(a) =>
      (match y
       case Null => Ok(x)
       case Struct(b) => (match StructAdd(a, b) case Ok(st) => Ok(Struct(st)) case Err(e) => Err(e))
       case Action(b) => (match ActionRadd(b, a) case Ok(act) => Ok(Action(act)) case Err(e) => Err(e))
       case Other(_, _, _, _) => Ok(Compound([x, y])))
    case Action(a) =>
      (match y
       case Null => Ok(x)
       case Struct(b) => (match ActionAdd(a, b, []) case Ok(act) => Ok(Action(act)) case Err(e) => Err(e))
       case Action(b) => (match ActionAdd(a, b.st, b.actions) case Ok(act) => Ok(Action(act)) case Err(e) => Err(e))
       case Other(_, _, _, _) => Ok(Compound([x, y])))
    case Other(_, _, final, _) =>
      if y == Null then Ok(x)
      else if final then Err(TypeError)
      else Ok(Compound([x, y]))
  }

  /** `_add_impl` (api.py:341-352): each candidate is added to the last
    * serializer; a compound result means the candidate is appended,
    * anything else replaces the last serializer. */
  function AddImpl(sers: seq<Serializer>, toAppend: seq<Serializer>): (r: Result<seq<Serializer>>)
    requires Flat(sers) && Flat(toAppend)
    ensures r.Ok? ==> Flat(r.value)
    decreases |toAppend|
  {
    if toAppend == [] then Ok(sers)
    else if sers == [] then Err(IndexError)
    else
      var n := |sers| - 1;
      match AddSimple(sers[n], toAppend[0])
      case Err(e) => Err(e)
      case Ok(joined) =>
        if joined.Compound? then AddImpl(sers + [toAppend[0]], toAppend[1..])
        else AddImpl(sers[..n] + [joined], toAppend[1..])
  }

  /** `_add_impl` as the source runs it, updating its list in place. */
  method AddImplInPlace(sers: seq<Serializer>, toAppend: seq<Serializer>) returns (r: Result<seq<Serializer>>)
    requires Flat(sers) && Flat(toAppend)
    ensures r == AddImpl(sers, toAppend)
  {
    var serializers := sers;
    var k := 0;
    while k < |toAppend|
      invariant 0 <= k <= |toAppend|
      invariant Flat(serializers)
      invariant AddImpl(sers, toAppend) == AddImpl(serializers, toAppend[k..])
    {
      assert toAppend[k..][1..] == toAppend[k + 1..];
      if serializers == [] {
        return Err(IndexError);
      }
      var candidate := toAppend[k];
      var joined := AddSimple(serializers[|serializers| - 1], candidate);
      if joined.Err? {
        return Err(joined.error);
      }
      if joined.value.Compound? {
        serializers := serializers + [candidate];
      } else {
        serializers := serializers[..|serializers| - 1] + [joined.value];
      }
      k := k + 1;
    }
    assert toAppend[k..] == [];
    return Ok(serializers);
  }

  function AddImplCompound(sers: seq<Serializer>, toAppend: seq<Serializer>): (r: Result<Serializer>)
    requires Flat(sers) && Flat(toAppend)
    ensures r.Ok? ==> r.value.Compound? && Flat(r.value.serializers)
  {
    match AddImpl(sers, toAppend)
    case Err(e) => Err(e)
    case Ok(cs) => Ok(Compound(cs))
  }

  /** `x + y` (api.py:173-189, 221-227, 329-364; structs.py:156-170,
    * 273-297), following Python's operator protocol. */
  function Add(x: Serializer, y: Operand): (r: Result<Serializer>)
    requires WellFormed(x) && (y.Ser? ==> WellFormed(y.s))
    ensures r.Ok? ==> WellFormed(r.value)
    ensures y.NotSerializer? ==> r == Err(TypeError)
  {
    match y
    case NotSerializer => Err(TypeError)
    case Ser(t) =>
      if x.Compound? then
        if t.Compound? then AddImplCompound(x.serializers, t.serializers)
        else AddImplCompound(x.serializers, [t])
      else if t.Compound? then
        if x == Null then Ok(t)
        else if IsFinal(x) then Err(TypeError)
        else AddImplCompound([x], t.serializers)
      else AddSimple(x, t)
  }

  /** `NullSerializer` is a left identity for `+`. */
  lemma {:induction false} NullLeftIdentity(s: Serializer)
    requires WellFormed(s)
    ensures Add(Null, Ser(s)) == Ok(s)
  {
  }

  /** ... and a right identity, except that an empty compound has no last
    * serializer to add it to. */
  lemma {:induction false} NullRightIdentity(s: Serializer)
    requires WellFormed(s)
    ensures s != Compound([]) ==> Add(s, Ser(Null)) == Ok(s)
    ensures s == Compound([]) ==> Add(s, Ser(Null)) == Err(IndexError)
  {
    if s.Compound? && s != Compound([]) {
      var cs := s.serializers;
      var n := |cs| - 1;
      assert cs[..n] + [cs[n]] == cs;
      assert [Null][1..] == [];
    }
  }

  /** The compounds `+` builds: at least one child, none of them a
    * compound or `NullSerializer`, and only the last one final. */
  predicate Built(s: Serializer)
  {
    s.Compound? ==> BuiltList(s.serializers)
  }

  predicate BuiltList(cs: seq<Serializer>)
  {
    |cs| >= 1 && Flat(cs)
    && (forall i :: 0 <= i < |cs| ==> cs[i] != Null)
    && (forall i :: 0 <= i < |cs| - 1 ==> !IsFinalChild(cs[i]))
  }

  /** One step of `_add_impl` keeps the list built, and is only possible
    * when the last serializer is not final. */
  lemma {:induction false} JoinStepBuilt(sers: seq<Serializer>, c: Serializer)
    requires BuiltList(sers) && !c.Compound? && c != Null
    requires AddSimple(sers[|sers| - 1], c).Ok?
    ensures !IsFinalChild(sers[|sers| - 1])
    ensures var joined := AddSimple(sers[|sers| - 1], c).value;
      if joined.Compound? then BuiltList(sers + [c])
      else BuiltList(sers[..|sers| - 1] + [joined])
  {
    var n := |sers| - 1;
    var joined := AddSimple(sers[n], c).value;
    assert sers[n].Other? ==> !sers[n].final;
    if !joined.Compound? {
      assert !IsFinalChild(joined);
      var next := sers[..n] + [joined];
      assert forall i :: 0 <= i < n ==> next[i] == sers[i];
    }
  }

  lemma {:induction false} AddImplBuilt(sers: seq<Serializer>, toAppend: seq<Serializer>)
    requires BuiltList(sers) && Flat(toAppend)
    requires forall i :: 0 <= i < |toAppend| ==> toAppend[i] != Null
    requires AddImpl(sers, toAppend).Ok?
    ensures BuiltList(AddImpl(sers, toAppend).value)
    ensures |toAppend| > 0 ==> !IsFinalChild(sers[|sers| - 1])
    decreases |toAppend|
  {
    if toAppend != [] {
      var n := |sers| - 1;
      var c := toAppend[0];
      assert c != Null && !c.Compound?;
      JoinStepBuilt(sers, c);
      var joined := AddSimple(sers[n], c).value;
      var rest := toAppend[1..];
      assert Flat(rest) && forall i :: 0 <= i < |rest| ==> rest[i] != Null;
      if joined.Compound? {
        AddImplBuilt(sers + [c], rest);
      } else {
        AddImplBuilt(sers[..n] + [joined], rest);
      }
    }
  }

  /** Every serializer `+` builds from built serializers is built, so its
    * value count is the sum of the operands'. */
  lemma {:induction false} AddBuilt(x: Serializer, y: Serializer)
    requires WellFormed(x) && WellFormed(y) && Built(x) && Built(y)
    requires Add(x, Ser(y)).Ok?
    ensures Built(Add(x, Ser(y)).value)
  {
    if x.Compound? {
      if y.Compound? {
        AddImplBuilt(x.serializers, y.serializers);
      } else if y != Null {
        AddImplBuilt(x.serializers, [y]);
      } else {
        NullRightIdentity(x);
      }
    } else if y.Compound? {
      if x != Null {
        AddImplBuilt([x], y.serializers);
      }
    } else {
      var r := Add(x, Ser(y)).value;
      if r.Compound? {
        assert r.serializers == [x, y];
        assert x.Other? ==> !x.final;
      }
    }
  }

  /** Adding anything but `NullSerializer` after a final serializer raises
    * TypeError (api.py:179-181), for every serializer `+` can build. */
  lemma {:induction false} FinalIsLast(x: Serializer, y: Serializer)
    requires WellFormed(x) && WellFormed(y) && Built(x) && Built(y)
    requires IsFinal(x) && y != Null
    ensures Add(x, Ser(y)).Err?
  {
    if x.Compound? {
      var cs := x.serializers;
      var i :| 0 <= i < |cs| && IsFinalChild(cs[i]);
      assert i == |cs| - 1;
      var ts := if y.Compound? then y.serializers else [y];
      if AddImpl(cs, ts).Ok? {
        AddImplBuilt(cs, ts);
      }
    }
  }

  /** `+` never changes how many values there are to pack. */
  lemma {:induction false} AddImplNumValues(sers: seq<Serializer>, toAppend: seq<Serializer>)
    requires Flat(sers) && Flat(toAppend) && AddImpl(sers, toAppend).Ok?
    ensures SumNumValues(AddImpl(sers, toAppend).value) == SumNumValues(sers) + SumNumValues(toAppend)
    decreases |toAppend|
  {
    if toAppend != [] {
      var n := |sers| - 1;
      var c := toAppend[0];
      assert toAppend == [c] + toAppend[1..];
      SumNumValuesAppend([c], toAppend[1..]);
      var joined := AddSimple(sers[n], c).value;
      AddSimpleNumValues(sers[n], c);
      if joined.Compound? {
        AddImplNumValues(sers + [c], toAppend[1..]);
        SumNumValuesAppend(sers, [c]);
      } else {
        AddImplNumValues(sers[..n] + [joined], toAppend[1..]);
        assert sers == sers[..n] + [sers[n]];
        SumNumValuesAppend(sers[..n], [sers[n]]);
        SumNumValuesAppend(sers[..n], [joined]);
      }
    }
  }

  lemma {:induction false} AddSimpleNumValues(x: Serializer, y: Serializer)
    requires !x.Compound? && !y.Compound? && AddSimple(x, y).Ok?
    ensures NumValuesOf(AddSimple(x, y).value) == NumValuesOf(x) + NumValuesOf(y)
  {
    assert SumNumValues([x, y]) == NumValuesOf(x) + NumValuesOf(y) by {
      assert [x, y][0] == x;
      assert [x, y][1..] == [y];
      assert [y][1..] == [];
      assert SumNumValues([y]) == NumValuesOf(y) + SumNumValues([]);
    }
    match x {
      case Struct(a) =>
        match y {
          case Struct(b) => FoldOverlapsNumValues(a.fmt, b.fmt);
          case Action(b) => FoldOverlapsNumValues(a.fmt, b.st.fmt);
          case _ =>
        }
      case Action(a) =>
        match y {
          case Struct(b) => FoldOverlapsNumValues(a.st.fmt, b.fmt);
          case Action(b) => FoldOverlapsNumValues(a.st.fmt, b.st.fmt);
          case _ =>
        }
      case _ =>
    }
  }

  lemma {:induction false} AddNumValues(x: Serializer, y: Serializer)
    requires WellFormed(x) && WellFormed(y) && Add(x, Ser(y)).Ok?
    ensures NumValuesOf(Add(x, Ser(y)).value) == NumValuesOf(x) + NumValuesOf(y)
  {
    if x.Compound? {
      if y.Compound? {
        AddImplNumValues(x.serializers, y.serializers);
      } else {
        AddImplNumValues(x.serializers, [y]);
        assert [y][1..] == [];
      }
    } else if y.Compound? {
      if x != Null {
        AddImplNumValues([x], y.serializers);
        assert [x][1..] == [];
      }
    } else {
      AddSimpleNumValues(x, y);
    }
  }
}
