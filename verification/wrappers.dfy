/** Option and Result values standing in for Go's `(value, error)` pairs. */
module Wrappers {

  /** A value that may be missing: `None` is a failed parse. */
  datatype Option<+T> = None | Some(value: T)

  /** The outcome of an operation that returns a value or a Go `error`. */
  datatype Result<+R, +E> = Success(value: R) | Failure(error: E)
}
