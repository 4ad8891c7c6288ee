/** A model of the part of Python's `struct` module the engine relies on.
  * A format string is a sequence of items, each an optional repeat count and
  * one format character; sizes are the standard sizes and no alignment is
  * inserted (see README, "Left out"). */
module PyStruct {
  import opened Outcomes
  import opened Values
  import opened ByteOrders

  /** One `<count><char>` piece of a format string; `None` is a count that was
    * not written, which the struct module reads as 1. */
  datatype Item = Item(count: Option<nat>, spec: char)

  type Format = seq<Item>

  /** The format characters, `_struct_chars` of structured/serializers/structs.py. */
  const StructChars: string := "xcbB?hHiIlLqQnNefdspP"

  predicate IsStructChar(c: char) { c in StructChars }

  predicate ValidFormat(f: Format)
  {
    forall i :: 0 <= i < |f| ==> IsStructChar(f[i].spec)
  }

  /** The repeat count an item stands for. */
  function Count(it: Item): nat
  {
    if it.count.None? then 1 else it.count.value
  }

  /** `s` and `p` take their count as a byte length, not a repeat count. */
  predicate IsStringChar(c: char) { c == 's' || c == 'p' }

  /** The primitive fields a format expands to. */
  datatype Unit =
    | PadByte
    | CharByte
    | BoolByte
    | Unsigned(width: nat)
    | Signed(width: nat)
    | FloatBits(width: nat)
    | Str(len: nat)
    | Pascal(len: nat)

  /** The field one occurrence of a non-string character stands for. */
  function UnitOf(c: char): Unit
  {
    match c
    case 'x' => PadByte
    case 'c' => CharByte
    case '?' => BoolByte
    case 'b' => Signed(1)
    case 'B' => Unsigned(1)
    case 'h' => Signed(2)
    case 'H' => Unsigned(2)
    case 'i' => Signed(4)
    case 'I' => Unsigned(4)
    case 'l' => Signed(4)
    case 'L' => Unsigned(4)
    case 'q' => Signed(8)
    case 'Q' => Unsigned(8)
    case 'n' => Signed(8)
    case 'N' => Unsigned(8)
    case 'P' => Unsigned(8)
    case 'e' => FloatBits(2)
    case 'f' => FloatBits(4)
    case 'd' => FloatBits(8)
    case _ => PadByte
  }

  function ExpandItem(it: Item): seq<Unit>
  {
    if it.spec == 's' then [Str(Count(it))]
    else if it.spec == 'p' then [Pascal(Count(it))]
    else Repeat(UnitOf(it.spec), Count(it))
  }

  /** The fields of a format, in order. */
  function Expand(f: Format): seq<Unit>
  {
    if f == [] then [] else ExpandItem(f[0]) + Expand(f[1..])
  }

  function Width(u: Unit): nat
  {
    match u
    case PadByte => 1
    case CharByte => 1
    case BoolByte => 1
    case Unsigned(w) => w
    case Signed(w) => w
    case FloatBits(w) => w
    case Str(n) => n
    case Pascal(n) => n
  }

  predicate HasValue(u: Unit) { !u.PadByte? }

  function UnitsSize(us: seq<Unit>): nat
  {
    if us == [] then 0 else Width(us[0]) + UnitsSize(us[1..])
  }

  function UnitsValues(us: seq<Unit>): nat
  {
    if us == [] then 0 else (if HasValue(us[0]) then 1 else 0) + UnitsValues(us[1..])
  }

  /** `struct.calcsize`. */
  function CalcSize(f: Format): nat { UnitsSize(Expand(f)) }

  /** How many values the format packs and unpacks, `compute_num_values` of
    * structured/serializers/structs.py:44-54. */
  function NumValues(f: Format): nat { UnitsValues(Expand(f)) }

  lemma {:induction false} UnitsSizeAppend(a: seq<Unit>, b: seq<Unit>)
    ensures UnitsSize(a + b) == UnitsSize(a) + UnitsSize(b)
    ensures UnitsValues(a + b) == UnitsValues(a) + UnitsValues(b)
  {
    if a != [] {
      assert (a + b)[1..] == a[1..] + b;
      UnitsSizeAppend(a[1..], b);
    } else {
      assert a + b == b;
    }
  }

  lemma {:induction false} ExpandAppend(f: Format, g: Format)
    ensures Expand(f + g) == Expand(f) + Expand(g)
  {
    if f != [] {
      assert (f + g)[1..] == f[1..] + g;
      ExpandAppend(f[1..], g);
      assert Expand(f + g) == ExpandItem(f[0]) + (Expand(f[1..]) + Expand(g));
    } else {
      assert f + g == g;
    }
  }

  /** calcsize and the value count are additive over format concatenation. */
  lemma {:induction false} FormatAppend(f: Format, g: Format)
    ensures CalcSize(f + g) == CalcSize(f) + CalcSize(g)
    ensures NumValues(f + g) == NumValues(f) + NumValues(g)
  {
    ExpandAppend(f, g);
    UnitsSizeAppend(Expand(f), Expand(g));
  }

  // ---- unsigned integers in little- and big-endian order ----

  function Pow256(w: nat): (r: nat)
    ensures r >= 1
  {
    if w == 0 then 1 else 256 * Pow256(w - 1)
  }

  /** The `w` low-order bytes of `x`, least significant first. */
  function LittleEndianBytes(x: nat, w: nat): (r: seq<byte>)
    ensures |r| == w
  {
    if w == 0 then [] else [x % 256] + LittleEndianBytes(x / 256, w - 1)
  }

  function FromLittleEndian(bs: seq<byte>): (r: nat)
    ensures r < Pow256(|bs|)
  {
    if bs == [] then 0 else bs[0] + 256 * FromLittleEndian(bs[1..])
  }

  function Reverse<T>(s: seq<T>): (r: seq<T>)
    ensures |r| == |s|
  {
    if s == [] then [] else Reverse(s[1..]) + [s[0]]
  }

  lemma {:induction false} ReverseAt<T>(s: seq<T>, k: nat)
    requires k < |s|
    ensures Reverse(s)[k] == s[|s| - 1 - k]
  {
    if k < |s| - 1 {
      ReverseAt(s[1..], k);
    }
  }

  lemma {:induction false} ReverseReverse<T>(s: seq<T>)
    ensures Reverse(Reverse(s)) == s
  {
    forall k | 0 <= k < |s|
      ensures Reverse(Reverse(s))[k] == s[k]
    {
      ReverseAt(Reverse(s), k);
      ReverseAt(s, |s| - 1 - k);
    }
  }

  lemma {:induction false} LittleEndianRoundTrip(x: nat, w: nat)
    requires x < Pow256(w)
    ensures FromLittleEndian(LittleEndianBytes(x, w)) == x
  {
    if w > 0 {
      LittleEndianRoundTrip(x / 256, w - 1);
    }
  }

  function EncodeUnsigned(bo: ByteOrder, x: nat, w: nat): (r: seq<byte>)
    ensures |r| == w
  {
    if IsBigEndian(bo) then Reverse(LittleEndianBytes(x, w)) else LittleEndianBytes(x, w)
  }

  function DecodeUnsigned(bo: ByteOrder, bs: seq<byte>): (r: nat)
    ensures r < Pow256(|bs|)
  {
    if IsBigEndian(bo) then FromLittleEndian(Reverse(bs)) else FromLittleEndian(bs)
  }

  /** Decoding an encoded in-range unsigned integer gives it back, in either
    * byte order. */
  lemma {:induction false} UnsignedRoundTrip(bo: ByteOrder, x: nat, w: nat)
    requires x < Pow256(w)
    ensures DecodeUnsigned(bo, EncodeUnsigned(bo, x, w)) == x
  {
    LittleEndianRoundTrip(x, w);
    if IsBigEndian(bo) {
      ReverseReverse(LittleEndianBytes(x, w));
    }
  }

  // ---- single fields ----

  predicate SignedInRange(i: int, w: nat)
  {
    w > 0 && -(Pow256(w) / 2) <= i < Pow256(w) / 2
  }

  function Truncate(b: seq<byte>, n: nat): (r: seq<byte>)
    ensures |r| == n
  {
    if |b| >= n then b[..n] else b + Zeros(n - |b|)
  }

  function Min(a: int, b: int): int { if a < b then a else b }

  /** `struct.pack` of one field. */
  function PackUnit(bo: ByteOrder, u: Unit, v: Value): (r: Result<seq<byte>>)
    requires HasValue(u)
    ensures r.Ok? ==> |r.value| == Width(u)
  {
    match u
    case CharByte =>
      if v.Bytes? && |v.data| == 1 then Ok(v.data) else Err(StructError)
    case BoolByte =>
      if v.Bool? then Ok([if v.b then 1 else 0])
      else if v.Int? then Ok([if v.i != 0 then 1 else 0])
      else Err(StructError)
    case Unsigned(w) =>
      if v.Int? && 0 <= v.i < Pow256(w) then Ok(EncodeUnsigned(bo, v.i, w)) else Err(StructError)
    case Signed(w) =>
      if v.Int? && SignedInRange(v.i, w)
      then Ok(EncodeUnsigned(bo, if v.i < 0 then v.i + Pow256(w) else v.i, w))
      else Err(StructError)
    case FloatBits(w) =>
      if v.Float? && v.bits < Pow256(w) then Ok(EncodeUnsigned(bo, v.bits, w)) else Err(StructError)
    case Str(n) =>
      if v.Bytes? then Ok(Truncate(v.data, n)) else Err(StructError)
    case Pascal(n) =>
      if !v.Bytes? then Err(StructError)
      else if n == 0 then Ok([])
      else
        var k := Min(|v.data|, n - 1);
        Ok([Min(k, 255) as byte] + Truncate(v.data[..k], n - 1))
  }

  /** `struct.unpack` of one field from exactly its bytes. */
  function UnpackUnit(bo: ByteOrder, u: Unit, bs: seq<byte>): Value
    requires HasValue(u) && |bs| == Width(u)
  {
    match u
    case CharByte => Bytes(bs)
    case BoolByte => Bool(bs[0] != 0)
    case Unsigned(w) => Int(DecodeUnsigned(bo, bs))
    case Signed(w) =>
      var x := DecodeUnsigned(bo, bs);
      if w > 0 && x >= Pow256(w) / 2 then Int(x - Pow256(w)) else Int(x)
    case FloatBits(w) => Float(DecodeUnsigned(bo, bs))
    case Str(n) => Bytes(bs)
    case Pascal(n) =>
      if n == 0 then Bytes([])
      else
        var k := Min(bs[0], n - 1);
        Bytes(bs[1..1 + k])
  }

  /** The values that `struct.unpack` returns unchanged after packing them. */
  predicate Canonical(u: Unit, v: Value)
    requires HasValue(u)
  {
    match u
    case CharByte => v.Bytes? && |v.data| == 1
    case BoolByte => v.Bool?
    case Unsigned(w) => v.Int? && 0 <= v.i < Pow256(w)
    case Signed(w) => v.Int? && SignedInRange(v.i, w)
    case FloatBits(w) => v.Float? && v.bits < Pow256(w)
    case Str(n) => v.Bytes? && |v.data| == n
    case Pascal(n) => v.Bytes? && (if n == 0 then v.data == [] else |v.data| < n && |v.data| <= 255)
  }

  lemma {:induction false} UnitRoundTrip(bo: ByteOrder, u: Unit, v: Value)
    requires HasValue(u) && Canonical(u, v)
    ensures PackUnit(bo, u, v).Ok?
    ensures UnpackUnit(bo, u, PackUnit(bo, u, v).value) == v
  {
    match u
    case Unsigned(w) => UnsignedRoundTrip(bo, v.i, w);
    case Signed(w) => SignedRoundTrip(bo, v.i, w);
    case FloatBits(w) => UnsignedRoundTrip(bo, v.bits, w);
    case Pascal(n) => PascalRoundTrip(bo, n, v.data);
    case _ =>
  }

  /** A signed field is stored as its two's complement. */
  lemma {:induction false} SignedRoundTrip(bo: ByteOrder, i: int, w: nat)
    requires SignedInRange(i, w)
    ensures PackUnit(bo, Signed(w), Int(i)).Ok?
    ensures UnpackUnit(bo, Signed(w), PackUnit(bo, Signed(w), Int(i)).value) == Int(i)
  {
    var x := if i < 0 then i + Pow256(w) else i;
    UnsignedRoundTrip(bo, x, w);
    assert DecodeUnsigned(bo, EncodeUnsigned(bo, x, w)) == x;
  }

  /** A Pascal string keeps its length in the first byte. */
  lemma {:induction false} PascalRoundTrip(bo: ByteOrder, n: nat, data: seq<byte>)
    requires Canonical(Pascal(n), Bytes(data))
    ensures PackUnit(bo, Pascal(n), Bytes(data)).Ok?
    ensures UnpackUnit(bo, Pascal(n), PackUnit(bo, Pascal(n), Bytes(data)).value) == Bytes(data)
  {
    if n > 0 {
      var k := Min(|data|, n - 1);
      assert k == |data| && Min(k, 255) == k;
      assert data[..k] == data;
      var out := [k as byte] + Truncate(data, n - 1);
      assert out[1..1 + k] == data;
    }
  }

  /** A Pascal field of `n` bytes holds the string's first `n - 1` bytes,
    * zero-padded, behind a length byte that counts them but stops at 255:
    * a 300-byte string in a `'300p'` field keeps 299 bytes behind `ff`. */
  lemma {:induction false} PascalLayout(bo: ByteOrder, n: nat, data: seq<byte>)
    requires n >= 1
    ensures PackUnit(bo, Pascal(n), Bytes(data)).Ok?
    ensures var r := PackUnit(bo, Pascal(n), Bytes(data)).value;
      var copied := if |data| < n - 1 then |data| else n - 1;
      r[1..] == Truncate(data, n - 1) && r[0] as int == (if copied <= 255 then copied else 255)
  {
    var k := Min(|data|, n - 1);
    var r := PackUnit(bo, Pascal(n), Bytes(data)).value;
    assert r == [Min(k, 255) as byte] + Truncate(data[..k], n - 1);
    if |data| >= n - 1 {
      assert data[..k][..n - 1] == data[..n - 1];
    } else {
      assert data[..k] == data;
    }
  }

  // ---- whole formats ----

  /** One packed run of bytes, then another; the first error wins. */
  function ThenBytes(a: Result<seq<byte>>, b: Result<seq<byte>>): (r: Result<seq<byte>>)
    ensures r.Ok? <==> a.Ok? && b.Ok?
    ensures r.Ok? ==> r.value == a.value + b.value
  {
    if a.Err? then a else if b.Err? then b else Ok(a.value + b.value)
  }

  lemma {:induction false} ThenBytesAssoc(a: Result<seq<byte>>, b: Result<seq<byte>>, c: Result<seq<byte>>)
    ensures ThenBytes(ThenBytes(a, b), c) == ThenBytes(a, ThenBytes(b, c))
  {
    if a.Ok? && b.Ok? && c.Ok? {
      assert a.value + b.value + c.value == a.value + (b.value + c.value);
    }
  }

  /** Fields are packed in order and the first one that fails decides the
    * error. */
  function PackUnits(bo: ByteOrder, us: seq<Unit>, vs: seq<Value>): (r: Result<seq<byte>>)
    requires |vs| == UnitsValues(us)
    ensures r.Ok? ==> |r.value| == UnitsSize(us)
  {
    if us == [] then Ok([])
    else if !HasValue(us[0]) then ThenBytes(Ok([0]), PackUnits(bo, us[1..], vs))
    else ThenBytes(PackUnit(bo, us[0], vs[0]), PackUnits(bo, us[1..], vs[1..]))
  }

  /** The values one field contributes: none for a pad byte. */
  function UnpackField(bo: ByteOrder, u: Unit, bs: seq<byte>): (r: seq<Value>)
    requires |bs| == Width(u)
    ensures |r| == if HasValue(u) then 1 else 0
  {
    if HasValue(u) then [UnpackUnit(bo, u, bs)] else []
  }

  function UnpackUnits(bo: ByteOrder, us: seq<Unit>, bs: seq<byte>): (r: seq<Value>)
    requires |bs| == UnitsSize(us)
    ensures |r| == UnitsValues(us)
    decreases |us|, 1
  {
    if us == [] then [] else UnpackFirstUnit(bo, us, bs)
  }

  /** The first field's values, then those of the fields after it. */
  function UnpackFirstUnit(bo: ByteOrder, us: seq<Unit>, bs: seq<byte>): (r: seq<Value>)
    requires us != [] && |bs| == UnitsSize(us)
    ensures |r| == UnitsValues(us)
    decreases |us|, 0
  {
    var w := Width(us[0]);
    UnpackField(bo, us[0], bs[..w]) + UnpackUnits(bo, us[1..], bs[w..])
  }

  /** `struct.pack(fmt, *values)`: the value count must match exactly. */
  function Pack(bo: ByteOrder, f: Format, vs: seq<Value>): (r: Result<seq<byte>>)
    ensures r.Ok? ==> |vs| == NumValues(f) && |r.value| == CalcSize(f)
    ensures |vs| != NumValues(f) ==> r == Err(StructError)
  {
    if |vs| != NumValues(f) then Err(StructError) else PackUnits(bo, Expand(f), vs)
  }

  /** `struct.unpack(fmt, buffer)`: the buffer must be exactly calcsize long. */
  function Unpack(bo: ByteOrder, f: Format, bs: seq<byte>): (r: Result<seq<Value>>)
    ensures r.Ok? <==> |bs| == CalcSize(f)
    ensures r.Ok? ==> |r.value| == NumValues(f)
  {
    if |bs| != CalcSize(f) then Err(StructError) else Ok(UnpackUnits(bo, Expand(f), bs))
  }

  /** `struct.unpack_from(fmt, buffer, offset)`: the buffer needs at least
    * calcsize bytes after the offset and may hold more. */
  function UnpackFrom(bo: ByteOrder, f: Format, bs: seq<byte>, off: nat): (r: Result<seq<Value>>)
    ensures r.Ok? <==> off + CalcSize(f) <= |bs|
    ensures r.Ok? ==> r == Unpack(bo, f, bs[off..off + CalcSize(f)])
  {
    if off + CalcSize(f) > |bs| then Err(StructError)
    else Unpack(bo, f, bs[off..off + CalcSize(f)])
  }

  /** Every value is one the struct module hands back unchanged. */
  predicate CanonicalValues(us: seq<Unit>, vs: seq<Value>)
  {
    |vs| == UnitsValues(us) &&
    (us != [] ==>
      if HasValue(us[0]) then Canonical(us[0], vs[0]) && CanonicalValues(us[1..], vs[1..])
      else CanonicalValues(us[1..], vs))
  }

  lemma {:induction false} UnitsRoundTrip(bo: ByteOrder, us: seq<Unit>, vs: seq<Value>)
    requires CanonicalValues(us, vs)
    ensures PackUnits(bo, us, vs).Ok?
    ensures UnpackUnits(bo, us, PackUnits(bo, us, vs).value) == vs
  {
    if us != [] && HasValue(us[0]) {
      var head := PackUnit(bo, us[0], vs[0]);
      var rest := PackUnits(bo, us[1..], vs[1..]);
      assert PackUnits(bo, us, vs) == ThenBytes(head, rest);
      UnitsRoundTrip(bo, us[1..], vs[1..]);
      UnitRoundTrip(bo, us[0], vs[0]);
      UnpackUnitsConcat(bo, us, head.value, rest.value);
      assert [vs[0]] + vs[1..] == vs;
    } else if us != [] {
      var rest := PackUnits(bo, us[1..], vs);
      assert PackUnits(bo, us, vs) == ThenBytes(Ok([0]), rest);
      UnitsRoundTrip(bo, us[1..], vs);
      UnpackUnitsConcat(bo, us, [0], rest.value);
    }
  }

  /** Unpacking fields from the bytes of the first one followed by the
    * bytes of the rest. */
  lemma {:induction false} UnpackUnitsConcat(bo: ByteOrder, us: seq<Unit>, head: seq<byte>, rest: seq<byte>)
    requires us != [] && |head| == Width(us[0]) && |rest| == UnitsSize(us[1..])
    ensures |head + rest| == UnitsSize(us)
    ensures UnpackUnits(bo, us, head + rest) == UnpackField(bo, us[0], head) + UnpackUnits(bo, us[1..], rest)
  {
    ConcatSplit(head, rest, |head|);
  }

  /** Unpacking what `struct.pack` produced gives the canonical values back. */
  lemma {:induction false} PackUnpackRoundTrip(bo: ByteOrder, f: Format, vs: seq<Value>)
    requires CanonicalValues(Expand(f), vs)
    ensures Pack(bo, f, vs).Ok?
    ensures Unpack(bo, f, Pack(bo, f, vs).value) == Ok(vs)
  {
    UnitsRoundTrip(bo, Expand(f), vs);
  }

  /** The value 1 as a two-byte signed field, in both byte orders. */
  lemma {:induction false} OneAsShort()
    ensures PackUnits(LittleEndian, [Signed(2)], [Int(1)]) == Ok([1, 0])
    ensures PackUnits(BigEndian, [Signed(2)], [Int(1)]) == Ok([0, 1])
    ensures PackUnits(LittleEndian, [Signed(2), Signed(2)], [Int(1), Int(1)]) == Ok([1, 0, 1, 0])
    ensures PackUnits(BigEndian, [Signed(2), Signed(2)], [Int(1), Int(1)]) == Ok([0, 1, 0, 1])
  {
    assert Pow256(2) == 65536 by { assert Pow256(1) == 256; }
    assert LittleEndianBytes(1, 2) == [1, 0] by {
      assert LittleEndianBytes(0, 1) == [0] + LittleEndianBytes(0, 0);
    }
    assert Reverse([1, 0]) == [0, 1] by {
      assert Reverse([0]) == [0];
      assert [1, 0][1..] == [0];
    }
    var u1, v1 := [Signed(2)], [Int(1)];
    assert u1[1..] == [] && v1[1..] == [];
    var le := PackUnit(LittleEndian, u1[0], v1[0]);
    var be := PackUnit(BigEndian, u1[0], v1[0]);
    assert le == Ok([1, 0]) && be == Ok([0, 1]);
    assert PackUnits(LittleEndian, u1, v1) == Ok(le.value + []);
    assert PackUnits(BigEndian, u1, v1) == Ok(be.value + []);
    assert le.value + [] == [1, 0] && be.value + [] == [0, 1];
    var u2, v2 := [Signed(2), Signed(2)], [Int(1), Int(1)];
    assert u2[1..] == u1 && v2[1..] == v1;
    assert PackUnits(LittleEndian, u2, v2) == Ok(le.value + [1, 0]);
    assert le.value + [1, 0] == [1, 0, 1, 0];
    assert PackUnits(BigEndian, u2, v2) == Ok(be.value + [0, 1]);
    assert be.value + [0, 1] == [0, 1, 0, 1];
  }
}
