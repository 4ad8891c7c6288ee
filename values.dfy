/** The Python values that flow through the serializers, and Python's
  * forgiving slice operation on sequences. */
module Values {
  import opened Outcomes

  /** One byte of a `bytes` object. */
  type byte = x: int | 0 <= x < 256

  /** The Python objects a field can hold.  A float is carried as its IEEE bit
    * pattern; a `Structured` instance is its attribute values in `_attrs` order. */
  datatype Value =
    | Int(i: int)
    | Bool(b: bool)
    | Float(bits: nat)
    | Bytes(data: seq<byte>)
    | Text(text: string)
    | Tuple(items: seq<Value>)
    | List(items: seq<Value>)
    | Object(attrs: seq<Value>)
    | NoneValue

  /** `for x in v` (and `len(v)`, `*v`): the elements of a list or tuple,
    * the byte values of a `bytes` object, the one-character strings of a
    * `str`; any other value is not iterable. */
  function Elements(v: Value): (r: Result<seq<Value>>)
    ensures r.Err? <==> !(v.List? || v.Tuple? || v.Bytes? || v.Text?)
    ensures r.Err? ==> r.error == TypeError
  {
    match v
    case List(xs) => Ok(xs)
    case Tuple(xs) => Ok(xs)
    case Bytes(d) => Ok(seq(|d|, i requires 0 <= i < |d| => Int(d[i])))
    case Text(t) => Ok(seq(|t|, i requires 0 <= i < |t| => Text([t[i]])))
    case _ => Err(TypeError)
  }

  /** Python's `s[:n]`: the first `n` elements, or all of them when there
    * are fewer.  Defined element by element rather than through Dafny's own
    * slices, so that a proof sees only the facts it asks for below. */
  function Take<T>(s: seq<T>, n: nat): (r: seq<T>)
  {
    if n == 0 || s == [] then [] else [s[0]] + Take(s[1..], n - 1)
  }

  /** Python's `s[n:]`: empty when `n` is past the end. */
  function Drop<T>(s: seq<T>, n: nat): (r: seq<T>)
  {
    if n == 0 || s == [] then s else Drop(s[1..], n - 1)
  }

  /** Python's `s[lo:hi]` for non-negative bounds: out-of-range bounds are
    * clamped and a reversed range is empty, so it never fails. */
  function Slice<T>(s: seq<T>, lo: nat, hi: nat): (r: seq<T>)
  {
    Take(Drop(s, lo), if hi < lo then 0 else hi - lo)
  }

  lemma {:induction false} TakeIsPrefix<T>(s: seq<T>, n: nat)
    requires n <= |s|
    ensures Take(s, n) == s[..n]
  {
    if n > 0 {
      TakeIsPrefix(s[1..], n - 1);
      assert s[..n] == [s[0]] + s[1..][..n - 1];
    }
  }

  lemma {:induction false} DropIsSuffix<T>(s: seq<T>, n: nat)
    requires n <= |s|
    ensures Drop(s, n) == s[n..]
  {
    if n > 0 {
      DropIsSuffix(s[1..], n - 1);
      assert s[n..] == s[1..][n - 1..];
    }
  }

  /** Python's `s[:n]` is short exactly when `s` is. */
  lemma {:induction false} TakeLength<T>(s: seq<T>, n: nat)
    ensures |Take(s, n)| == if n <= |s| then n else |s|
    ensures |s| <= n ==> Take(s, n) == s
  {
    if n > 0 && s != [] {
      TakeLength(s[1..], n - 1);
      assert s == [s[0]] + s[1..];
    }
  }

  /** Python's `s[n:]` has what is left after `n` elements. */
  lemma {:induction false} DropLength<T>(s: seq<T>, n: nat)
    ensures |Drop(s, n)| == if n <= |s| then |s| - n else 0
  {
    if n > 0 && s != [] {
      DropLength(s[1..], n - 1);
    }
  }

  lemma {:induction false} SliceIsSubsequence<T>(s: seq<T>, lo: nat, hi: nat)
    requires lo <= hi <= |s|
    ensures Slice(s, lo, hi) == s[lo..hi]
  {
    DropIsSuffix(s, lo);
    TakeIsPrefix(s[lo..], hi - lo);
  }

  lemma {:induction false} TakePastEnd<T>(s: seq<T>, n: nat)
    requires |s| <= n
    ensures Take(s, n) == s
  {
    if n > 0 && s != [] {
      TakePastEnd(s[1..], n - 1);
    }
  }

  lemma {:induction false} DropPastEnd<T>(s: seq<T>, n: nat)
    requires |s| <= n
    ensures Drop(s, n) == []
  {
    if n > 0 && s != [] {
      DropPastEnd(s[1..], n - 1);
    }
  }

  /** The bytes a serializer produced and the value of its `size` attribute
    * just after the call. */
  datatype Packed = Packed(data: seq<byte>, size: nat)

  /** The values a serializer produced and the value of its `size` attribute
    * just after the call. */
  datatype Unpacked = Unpacked(values: seq<Value>, size: nat)

  function Zeros(n: nat): (r: seq<byte>)
    ensures |r| == n && forall i :: 0 <= i < n ==> r[i] == 0
  {
    if n == 0 then [] else Zeros(n - 1) + [0]
  }

  /** `n` copies of `x`, Python's `(x,) * n`. */
  function Repeat<T>(x: T, n: nat): (r: seq<T>)
    ensures |r| == n
  {
    if n == 0 then [] else [x] + Repeat(x, n - 1)
  }

  /** Every copy is `x`. */
  lemma {:induction false} RepeatAt<T>(x: T, n: nat)
    ensures forall i :: 0 <= i < n ==> Repeat(x, n)[i] == x
  {
    if n > 0 {
      RepeatAt(x, n - 1);
      assert forall i :: 1 <= i < n ==> Repeat(x, n)[i] == Repeat(x, n - 1)[i - 1];
    }
  }

  function Sum(s: seq<nat>): nat
  {
    if s == [] then 0 else s[0] + Sum(s[1..])
  }

  lemma {:induction false} DropDrop<T>(s: seq<T>, a: nat, b: nat)
    ensures Drop(Drop(s, a), b) == Drop(s, a + b)
  {
    if a > 0 && s != [] {
      DropDrop(s[1..], a - 1, b);
    } else if s == [] {
      DropPastEnd(s, b);
      DropPastEnd(s, a + b);
    }
  }

  /** Cutting within the first part of a concatenation leaves the second
    * part alone. */
  lemma {:induction false} TakeDropAppend<T>(a: seq<T>, b: seq<T>, n: nat)
    requires n <= |a|
    ensures Take(a + b, n) == Take(a, n)
    ensures Drop(a + b, n) == Drop(a, n) + b
  {
    if n > 0 {
      assert (a + b)[1..] == a[1..] + b;
      TakeDropAppend(a[1..], b, n - 1);
    }
  }

  /** A slice that ends inside the first part of a concatenation does not
    * see the second part. */
  lemma {:induction false} SliceAppend<T>(a: seq<T>, b: seq<T>, lo: nat, hi: nat)
    requires hi <= |a|
    ensures Slice(a + b, lo, hi) == Slice(a, lo, hi)
  {
    if lo <= |a| {
      TakeDropAppend(a, b, lo);
      DropIsSuffix(a, lo);
      var n := if hi < lo then 0 else hi - lo;
      TakeDropAppend(Drop(a, lo), b, n);
    }
  }

  /** The first `a + b` elements are the first `a`, then the first `b` of
    * what follows them. */
  lemma {:induction false} PrefixThenDrop<T>(s: seq<T>, a: nat, b: nat)
    requires a + b <= |s|
    ensures b <= |Drop(s, a)|
    ensures s[..a + b] == s[..a] + Drop(s, a)[..b]
  {
    DropIsSuffix(s, a);
    assert Drop(s, a)[..b] == s[a..a + b];
  }

  /** Dropping exactly a prefix leaves what follows it. */
  lemma {:induction false} DropPrefix<T>(pre: seq<T>, s: seq<T>)
    ensures Drop(pre + s, |pre|) == s
  {
    TakeDropAppend(pre, s, |pre|);
    DropIsSuffix(pre, |pre|);
  }

  /** The element at `k` heads the suffix that starts there. */
  lemma {:induction false} DropHead<T>(s: seq<T>, k: nat)
    requires k < |s|
    ensures Drop(s, k) != [] && Drop(s, k)[0] == s[k]
    ensures Drop(Drop(s, k), 1) == Drop(s, k + 1)
  {
    DropIsSuffix(s, k);
    DropDrop(s, k, 1);
  }

  lemma {:induction false} SliceOfDrop<T>(s: seq<T>, a: nat, n: nat)
    ensures Slice(Drop(s, a), 0, n) == Slice(s, a, a + n)
  {
  }

  // ---- sequence facts, stated once so that larger proofs can cite them ----

  lemma {:induction false} ConcatSplit<T>(a: seq<T>, b: seq<T>, w: nat)
    requires w <= |a|
    ensures (a + b)[w..] == a[w..] + b
    ensures (a + b)[..w] == a[..w]
  {
  }

  /** Appending the head of `s` and then its tail appends `s`. */
  lemma {:induction false} AppendHeadTail<T>(a: seq<T>, s: seq<T>)
    requires |s| > 0
    ensures a + [s[0]] + s[1..] == a + s
  {
    assert s == [s[0]] + s[1..];
  }

  lemma {:induction false} ConcatAssoc<T>(a: seq<T>, b: seq<T>, c: seq<T>)
    ensures a + (b + c) == a + b + c
  {
  }

  lemma {:induction false} ConcatEmpty<T>(a: seq<T>)
    ensures [] + a == a && a + [] == a
  {
  }

  lemma {:induction false} DropFirst<T>(s: seq<T>, k: nat)
    requires k < |s|
    ensures s[k..][0] == s[k] && s[k..][1..] == s[k + 1..]
  {
  }

  /** The first `a + b` elements are the first `a` followed by the `b`
    * after them. */
  lemma {:induction false} SliceSplit<T>(s: seq<T>, a: nat, b: nat)
    requires a + b <= |s|
    ensures |Slice(s, 0, a)| == a && |Slice(Drop(s, a), 0, b)| == b
    ensures Slice(s, 0, a + b) == Slice(s, 0, a) + Slice(Drop(s, a), 0, b)
  {
    SliceIsSubsequence(s, 0, a);
    SliceIsSubsequence(s, a, a + b);
    SliceIsSubsequence(s, 0, a + b);
    SliceOfDrop(s, a, b);
    assert s[0..a + b] == s[0..a] + s[a..a + b];
  }
}
