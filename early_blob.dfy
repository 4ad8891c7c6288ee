/** `blob[...]` of the second early generation
  * (structured/complex_types/blob.py): a byte string prefixed by its length
  * in a `uint*`, or for an integer count the plain `char[count]`. */
module EarlyBlob {
  import opened Outcomes
  import opened Values
  import opened ByteOrders
  import opened PyStruct
  import opened Codecs
  import Strings
  import EarlyStrings

  /** `blob.__class_getitem__` (blob.py:26-44): a `uint*` chooses the
    * prefixed blob, an integer is handed to `char`, anything else (the
    * net and terminator counts `char` would take included) is refused. */
  function BlobCreate(count: EarlyStrings.CountArg): (r: Result<EarlyStrings.StringKind>)
    ensures count.UintCount? ==> r == Ok(EarlyStrings.DynamicKind(count.u))
    ensures count.IntCount? ==> r == EarlyStrings.CharCreate(count)
    ensures !count.UintCount? && !count.IntCount? ==> r == Err(TypeError)
    ensures r.Ok? ==> r.value.StaticKind? || r.value.DynamicKind?
  {
    match count
    case UintCount(u) => Ok(EarlyStrings.DynamicKind(u))
    case IntCount(_) => EarlyStrings.CharCreate(count)
    case _ => Err(TypeError)
  }

  /** Every blob type reads back any byte string it can count, before any
    * trailing bytes and after any leading ones. The prefixed blob's
    * serializer (blob.py:57-145) is the dynamic string serializer with a
    * correctly built count struct: `count_st` is the `uint*` struct in the
    * given byte order, `pack` writes the length and the bytes through
    * `'{bo}{count_fmt}{n}s'`, `unpack` reads the length from the first
    * `count_st.size` bytes and then at most that many bytes, `unpack_from`
    * exactly that many, each with prefix plus length as its size. */
  lemma {:induction false} BlobRoundTrip(count: EarlyStrings.CountArg, bo: ByteOrder,
                      pre: seq<byte>, raw: seq<byte>, rest: seq<byte>)
    requires BlobCreate(count).Ok?
    requires EarlyStrings.Fits(BlobCreate(count).value, raw)
    ensures EarlyStrings.RoundTrips(EarlyStrings.KindCodec(BlobCreate(count).value, bo), pre, raw, raw, rest)
  {
    EarlyStrings.KindRoundTrip(BlobCreate(count).value, bo, pre, raw, rest);
  }

  /** A one-byte blob prefix allows at most 255 bytes, a two-byte one 65535. */
  lemma {:induction false} BlobCapacity(raw: seq<byte>)
    ensures EarlyStrings.Fits(EarlyStrings.DynamicKind(EarlyStrings.U8), raw) <==> |raw| <= 255
    ensures EarlyStrings.Fits(EarlyStrings.DynamicKind(EarlyStrings.U16), raw) <==> |raw| <= 65535
  {
    assert Pow256(1) == 256 by {
      assert Pow256(0) == 1;
    }
    assert Pow256(2) == 65536 by {
      assert Pow256(1) == 256 by { assert Pow256(0) == 1; }
    }
  }
}
