/** Failure-compatible wrappers shared by the registry and the dispatcher. */
module Wrappers {

  /** A value that may be absent; stands for Go's `(value, ok)` pair and for a nil pointer. */
  datatype Option<+T> = None | Some(value: T)

  /** The outcome of a call that returns either a value or an error. */
  datatype Result<+T, +E> = Success(value: T) | Failure(error: E)
}
