/** The `Structured` base class of both early generations (structured.py:277-330
  * and structured/structured.py:377-430, the same text in both): instance
  * attributes paired positionally with the values of the class's struct. */
module Records {
  import opened Outcomes
  import opened Values
  import opened ByteOrders
  import opened PyStruct

  /** No name occurs twice. */
  predicate Distinct(names: seq<string>)
  {
    forall i, j :: 0 <= i < j < |names| ==> names[i] != names[j]
  }

  /** `_set`: `setattr` for each pair of `zip(self._attrs, values)`, in
    * order, so the shorter of the two decides how many are assigned. */
  function Assigned(fields: map<string, Value>, attrs: seq<string>, vs: seq<Value>): (r: map<string, Value>)
    decreases |attrs|
  {
    if |attrs| == 0 || |vs| == 0 then fields
    else Assigned(fields[attrs[0] := vs[0]], attrs[1..], vs[1..])
  }

  /** Assigning adds the zipped names and keeps every other attribute; with
    * distinct names, the i-th name holds the i-th value. */
  lemma {:induction false} AssignedFields(fields: map<string, Value>, attrs: seq<string>, vs: seq<Value>)
    ensures var n := Min(|attrs|, |vs|);
      Assigned(fields, attrs, vs).Keys == fields.Keys + set i | 0 <= i < n :: attrs[i]
    ensures forall a :: a in fields && a !in attrs[..Min(|attrs|, |vs|)] ==>
      Assigned(fields, attrs, vs)[a] == fields[a]
    ensures Distinct(attrs) ==>
      forall i :: 0 <= i < Min(|attrs|, |vs|) ==> Assigned(fields, attrs, vs)[attrs[i]] == vs[i]
    decreases |attrs|
  {
    if |attrs| > 0 && |vs| > 0 {
      var f := fields[attrs[0] := vs[0]];
      AssignedFields(f, attrs[1..], vs[1..]);
      var n := Min(|attrs|, |vs|);
      assert (set i | 0 <= i < n :: attrs[i]) == {attrs[0]} + set i | 0 <= i < n - 1 :: attrs[1..][i] by {
        forall i | 0 <= i < n
          ensures attrs[i] in {attrs[0]} + set k | 0 <= k < n - 1 :: attrs[1..][k]
        {
          if i > 0 { assert attrs[1..][i - 1] == attrs[i]; }
        }
        forall k | 0 <= k < n - 1
          ensures attrs[1..][k] in set i | 0 <= i < n :: attrs[i]
        {
          assert attrs[1..][k] == attrs[k + 1];
        }
      }
      if Distinct(attrs) {
        assert Distinct(attrs[1..]) by {
          forall i, j | 0 <= i < j < |attrs[1..]|
            ensures attrs[1..][i] != attrs[1..][j]
          {
            assert attrs[1..][i] == attrs[i + 1] && attrs[1..][j] == attrs[j + 1];
          }
        }
        forall i | 0 <= i < n
          ensures Assigned(fields, attrs, vs)[attrs[i]] == vs[i]
        {
          if i == 0 {
            assert attrs[0] !in attrs[1..] by {
              forall k | 0 <= k < |attrs[1..]| ensures attrs[1..][k] != attrs[0] {
                assert attrs[1..][k] == attrs[k + 1];
              }
            }
          } else {
            assert attrs[1..][i - 1] == attrs[i] && vs[1..][i - 1] == vs[i];
          }
        }
      }
      forall a | a in fields && a !in attrs[..n]
        ensures Assigned(fields, attrs, vs)[a] == fields[a]
      {
        assert attrs[0] == attrs[..n][0];
        assert a !in attrs[1..][..Min(|attrs| - 1, |vs| - 1)] by {
          forall k | 0 <= k < n - 1 ensures attrs[1..][k] != a {
            assert attrs[1..][k] == attrs[..n][k + 1];
          }
        }
      }
    }
  }

  function Min(a: nat, b: nat): nat { if a <= b then a else b }

  /** `_get`: `getattr` of each attribute in order; an attribute with
    * neither an assigned nor a class-level value is an AttributeError. */
  function Lookup(fields: map<string, Value>, attrs: seq<string>): (r: Result<seq<Value>>)
    ensures r.Err? ==> r.error == AttributeError
    ensures r.Ok? ==> |r.value| == |attrs|
    decreases |attrs|
  {
    if |attrs| == 0 then Ok([])
    else if attrs[0] !in fields then Err(AttributeError)
    else
      var rest := Lookup(fields, attrs[1..]);
      if rest.Err? then rest
      else Ok([fields[attrs[0]]] + rest.value)
  }

  /** `_get` fails exactly when some attribute was never assigned, and
    * otherwise gives each attribute's value in order. */
  lemma {:induction false} LookupSpec(fields: map<string, Value>, attrs: seq<string>)
    ensures Lookup(fields, attrs).Ok? <==> forall i :: 0 <= i < |attrs| ==> attrs[i] in fields
    ensures Lookup(fields, attrs).Ok? ==>
      forall i :: 0 <= i < |attrs| ==> Lookup(fields, attrs).value[i] == fields[attrs[i]]
    decreases |attrs|
  {
    if |attrs| > 0 {
      LookupSpec(fields, attrs[1..]);
      assert forall i :: 1 <= i < |attrs| ==> attrs[i] == attrs[1..][i - 1];
    }
  }

  /** Setting one value per attribute and then getting them gives the values
    * back, whatever was assigned before. */
  lemma {:induction false} SetThenGet(fields: map<string, Value>, attrs: seq<string>, vs: seq<Value>)
    requires Distinct(attrs) && |vs| == |attrs|
    ensures Lookup(Assigned(fields, attrs, vs), attrs) == Ok(vs)
  {
    AssignedFields(fields, attrs, vs);
    var r := Lookup(Assigned(fields, attrs, vs), attrs);
    LookupSpec(Assigned(fields, attrs, vs), attrs);
    forall i | 0 <= i < |attrs| ensures attrs[i] in Assigned(fields, attrs, vs) {
      assert attrs[i] in set k | 0 <= k < Min(|attrs|, |vs|) :: attrs[k];
    }
    assert r.Ok?;
    assert r.value == vs;
  }

  /** An instance of a `Structured` class: the struct (byte order and
    * format) and the attribute names the class was built with, and the
    * values `getattr` finds for its attributes. */
  class Structured {
    const byteOrder: ByteOrder
    const fmt: Format
    const attrs: seq<string>
    var fields: map<string, Value>

    /** A new instance.  `classValues` are the values the class body (or a
      * base class's) gives to attribute names.  A class built with
      * `slots=False`, the default of `StructuredMeta.__new__`, keeps them as
      * class attributes, which `getattr` finds until `_set` assigns the
      * instance's own; with `slots=True` they are removed from the class
      * (structured.py:265-269), and the instance starts with none. */
    constructor (byteOrder: ByteOrder, fmt: Format, attrs: seq<string>, slots: bool,
                 classValues: map<string, Value>)
      ensures this.byteOrder == byteOrder && this.fmt == fmt && this.attrs == attrs
      ensures slots ==> fields == map[]
      ensures !slots ==> fields == classValues
    {
      this.byteOrder := byteOrder;
      this.fmt := fmt;
      this.attrs := attrs;
      fields := if slots then map[] else classValues;
    }

    /** `_set`. */
    method Set(values: seq<Value>)
      modifies this
      ensures fields == Assigned(old(fields), attrs, values)
    {
      var i := 0;
      while i < |attrs| && i < |values|
        invariant 0 <= i <= |attrs| && i <= |values|
        invariant Assigned(fields, attrs[i..], values[i..]) == Assigned(old(fields), attrs, values)
        decreases |attrs| - i
      {
        assert attrs[i..][1..] == attrs[i + 1..] && values[i..][1..] == values[i + 1..];
        fields := fields[attrs[i] := values[i]];
        i := i + 1;
      }
    }

    /** `_get`. */
    method Get() returns (r: Result<seq<Value>>)
      ensures r == Lookup(fields, attrs)
    {
      LookupSpec(fields, attrs);
      var vs: seq<Value> := [];
      var i := 0;
      while i < |attrs|
        invariant 0 <= i <= |attrs| && |vs| == i
        invariant forall k :: 0 <= k < i ==> attrs[k] in fields && vs[k] == fields[attrs[k]]
      {
        if attrs[i] !in fields {
          return Err(AttributeError);
        }
        vs := vs + [fields[attrs[i]]];
        i := i + 1;
      }
      assert Lookup(fields, attrs).Ok?;
      assert Lookup(fields, attrs).value == vs;
      return Ok(vs);
    }

    /** `unpack`: `struct.unpack` of the whole buffer, which must be exactly
      * the struct's size, then `_set`. */
    method Unpack(buffer: seq<byte>) returns (r: Result<()>)
      modifies this
      ensures var u := PyStruct.Unpack(byteOrder, fmt, buffer);
        (u.Err? ==> r == Err(u.error) && fields == old(fields))
        && (u.Ok? ==> r == Ok(()) && fields == Assigned(old(fields), attrs, u.value))
    {
      var u := PyStruct.Unpack(byteOrder, fmt, buffer);
      if u.Err? {
        return Err(u.error);
      }
      Set(u.value);
      return Ok(());
    }

    /** `unpack_from`: the struct read at `offset`, then `_set`. */
    method UnpackFrom(buffer: seq<byte>, offset: nat) returns (r: Result<()>)
      modifies this
      ensures var u := PyStruct.UnpackFrom(byteOrder, fmt, buffer, offset);
        (u.Err? ==> r == Err(u.error) && fields == old(fields))
        && (u.Ok? ==> r == Ok(()) && fields == Assigned(old(fields), attrs, u.value))
    {
      var u := PyStruct.UnpackFrom(byteOrder, fmt, buffer, offset);
      if u.Err? {
        return Err(u.error);
      }
      Set(u.value);
      return Ok(());
    }

    /** `pack`: the attributes' values, in order, through the struct; an
      * unassigned attribute is an AttributeError and a value the struct
      * refuses a struct error. */
    method Pack() returns (r: Result<seq<byte>>)
      ensures Lookup(fields, attrs).Err? ==> r == Err(AttributeError)
      ensures Lookup(fields, attrs).Ok? ==> r == PyStruct.Pack(byteOrder, fmt, Lookup(fields, attrs).value)
      ensures r.Ok? ==> |r.value| == CalcSize(fmt) && |attrs| == NumValues(fmt)
    {
      var vs := Get();
      if vs.Err? {
        return Err(vs.error);
      }
      r := PyStruct.Pack(byteOrder, fmt, vs.value);
    }
  }

  /** The bytes one instance packs to, unpacked into any instance of the same
    * class, give it the same attribute values, when the class has one value
    * per distinct attribute and the values are ones the struct reads back. */
  lemma {:induction false} PackUnpackRoundTrip(bo: ByteOrder, fmt: Format, attrs: seq<string>,
                            fields: map<string, Value>, other: map<string, Value>)
    requires Distinct(attrs)
    requires Lookup(fields, attrs).Ok?
    requires CanonicalValues(Expand(fmt), Lookup(fields, attrs).value)
    ensures PyStruct.Pack(bo, fmt, Lookup(fields, attrs).value).Ok?
    ensures var u := PyStruct.Unpack(bo, fmt, PyStruct.Pack(bo, fmt, Lookup(fields, attrs).value).value);
      u.Ok? && Lookup(Assigned(other, attrs, u.value), attrs) == Lookup(fields, attrs)
  {
    var vs := Lookup(fields, attrs).value;
    PyStruct.PackUnpackRoundTrip(bo, fmt, vs);
    SetThenGet(other, attrs, vs);
  }
}
