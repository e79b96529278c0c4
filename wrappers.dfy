/** Option and Result datatypes shared by the other modules. */
module Wrappers {

  /** A value that may be absent (Go's nil pointer or nil map). */
  datatype Option<+T> = None | Some(value: T)

  /** A value or an error (Go's `(T, error)` result pair). */
  datatype Result<+T, +E> = Success(value: T) | Failure(error: E)
}
