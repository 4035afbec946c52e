/** Option and Result, the shapes every decoder of the model returns instead of throwing. */
module Wrappers {

  datatype Option<+T> = None | Some(value: T)

  /** The outcome of an operation that the source may abandon with an exception. */
  datatype Result<+T, +E> = Ok(value: T) | Err(error: E)

  /** The Poco exception classes the modelled code throws or catches. */
  datatype Exception =
    | InvalidAccess     // a JSON attribute is absent
    | InvalidArgument   // a name or value outside the accepted set
    | Syntax            // text that is not a number or not JSON
    | Range             // a number outside the accepted range
    | NotFound          // a product code no factory knows
    | NullPointer       // a null pointer dereferenced
    | BadCast           // a JSON attribute of the wrong kind
    | General           // a plain Poco::Exception: a manufacturer nobody registered
}
