/** Error and result types shared by every module.  Each Python exception
  * the engine raises is one constructor of `Error`. */
module Outcomes {
  /** The exceptions the modelled code raises or lets escape. */
  datatype Error =
    | TypeError       // wrong kind of operand, `NotImplemented` on both sides
    | ValueError      // bad count, length or byte-order mismatch
    | StructError     // struct.error: value out of range, buffer too short
    | IndexError      // indexing an empty sequence
    | SyntaxError     // a field name repeated in a derived class
    | AttributeError  // an attribute assigned on `NotImplemented`

  datatype Result<T> = Ok(value: T) | Err(error: Error)

  datatype Option<T> = None | Some(value: T)
}
