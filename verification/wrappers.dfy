/** Optional values and results, used where the Go code has nil pointers and error returns. */
module Wrappers {

  /** A value that may be absent; stands for a Go pointer that may be nil. */
  datatype Option<+T> = None | Some(value: T)

  /** The value of a call that either succeeds or returns an error. */
  datatype Result<+R, +E> = Success(value: R) | Failure(error: E)
}
