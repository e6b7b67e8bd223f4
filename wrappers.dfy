/** The two result shapes of the Go code: a nil-able pointer and a (value, error) pair. */
module Wrappers {

  /** A value that may be missing: Go's nil pointer or nil byte slice. */
  datatype Option<+T> = None | Some(value: T)

  /** A value or the error that replaced it. */
  datatype Result<+T, +E> = Ok(value: T) | Err(error: E)
}
