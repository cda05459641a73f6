/** Option and Result, the shapes of Go's nil-able values and (value, error) returns. */
module Wrappers {

  datatype Option<+T> = None | Some(value: T)

  /** A Go `(T, error)` return: either a value or an error message. */
  datatype Result<+T> = Ok(value: T) | Err(error: string)
}
