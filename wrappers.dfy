/** Option and Result, the two shapes the service's Go code expresses with nil pointers and error values. */
module Wrappers {

  /** A value that may be absent (a nil pointer in the source). */
  datatype Option<+T> = None | Some(value: T)

  /** A value or an error (the source's `(*T, error)` pair, of which exactly one is non-nil). */
  datatype Result<+T, +E> = Success(value: T) | Failure(error: E)
}
