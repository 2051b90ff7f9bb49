/** Failure-carrying values used for the Go functions that return an error. */
module Wrappers {

  datatype Option<+T> = None | Some(value: T)

  /** A Go `(value, error)` pair in which the value is meaningful only without the error. */
  datatype Result<+T, +E> = Ok(value: T) | Err(error: E)
}
