/** `ByteOrder` and `ByteOrderMode` of structured/base_types.py (the same
  * enums appear in structured/structured.py). */
module ByteOrders {
  import opened Outcomes

  datatype ByteOrder = Default | LittleEndian | BigEndian | NativeStandard | NativeNative | Network

  datatype ByteOrderMode = Override | Strict

  /** The enum member's value, the prefix handed to the struct module. */
  function Marker(bo: ByteOrder): (r: string)
    ensures bo == Default <==> r == ""
    ensures |r| <= 1
  {
    match bo
    case Default => ""
    case LittleEndian => "<"
    case BigEndian => ">"
    case NativeStandard => "="
    case NativeNative => "@"
    case Network => "!"
  }

  /** `ByteOrder(c)` for a one-character string: the member whose value it is,
    * or the enum's ValueError. */
  function FromChar(c: char): (r: Result<ByteOrder>)
    ensures r.Ok? ==> Marker(r.value) == [c]
    ensures r.Err? ==> r.error == ValueError
  {
    if c == '<' then Ok(LittleEndian)
    else if c == '>' then Ok(BigEndian)
    else if c == '=' then Ok(NativeStandard)
    else if c == '@' then Ok(NativeNative)
    else if c == '!' then Ok(Network)
    else Err(ValueError)
  }

  lemma {:induction false} FromMarker(bo: ByteOrder)
    requires bo != Default
    ensures FromChar(Marker(bo)[0]) == Ok(bo)
  {
  }

  /** Whether the struct module reads multi-byte fields most significant
    * byte first.  The host is taken to be little-endian. */
  predicate IsBigEndian(bo: ByteOrder)
  {
    bo == BigEndian || bo == Network
  }
}
