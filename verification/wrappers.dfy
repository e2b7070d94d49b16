/** Option and Result, shared by the other modules. */
module Wrappers {

  /** A value that may be missing: Go's nil slice, an absent error, a failed decode. */
  datatype Option<+T> = None | Some(value: T)

  /** A value or the error that prevented it. */
  datatype Result<+T, +E> = Ok(value: T) | Err(error: E)
}
