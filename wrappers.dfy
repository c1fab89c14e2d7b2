/** Success/failure carriers used wherever the modelled code returns an error value. */
module Wrappers {

  datatype Option<+T> = None | Some(value: T)

  /** A value or an error, like Go's `(T, error)` pair and a settled JavaScript promise. */
  datatype Result<+T, +E> = Success(value: T) | Failure(error: E)

  /** An error or nothing, like a Go function returning only `error`. */
  datatype Outcome<+E> = Pass | Fail(error: E)
}
