/** The observable behaviour of a serializer object of the current engine.
  * `size` is last-call state in the source; here each call returns the value
  * `size` holds right after it. */
module Codecs {
  import opened Outcomes
  import opened Values

  /** `pack(obj, vs)` is `prepack(obj).pack(*vs)`, `unpack(obj, b)` is
    * `preunpack(obj).unpack(b)` and `unpackFrom(obj, b, off)` is
    * `preunpack(obj).unpack_from(b, off)`; a serializer without its own
    * `prepack`/`preunpack` ignores `obj`. */
  datatype Codec = Codec(
    numValues: nat,
    pack: (Value, seq<Value>) -> Result<Packed>,
    unpack: (Value, seq<byte>) -> Result<Unpacked>,
    unpackFrom: (Value, seq<byte>, nat) -> Result<Unpacked>)

  /** The three calls, as functions of the codec, so that methods and
    * functions name one and the same value. */
  function PackWith(c: Codec, obj: Value, vs: seq<Value>): Result<Packed>
  {
    c.pack(obj, vs)
  }

  function UnpackWith(c: Codec, obj: Value, bs: seq<byte>): Result<Unpacked>
  {
    c.unpack(obj, bs)
  }

  function UnpackFromWith(c: Codec, obj: Value, bs: seq<byte>, off: nat): Result<Unpacked>
  {
    c.unpackFrom(obj, bs, off)
  }
}
