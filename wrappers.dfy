/** Failure-carrying values used where the Go code returns nil or an error. */
module Wrappers {

  /** A value that may be absent, as a nil result or a nil error in Go. */
  datatype Option<+T> = None | Some(value: T)

  /** Either a value or an error text: Go's (value, error) result pair. */
  datatype Result<+T, +E> = Success(value: T) | Failure(error: E)
}
