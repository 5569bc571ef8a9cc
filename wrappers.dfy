/** Failure-compatible wrappers shared by the modules of this model. */
module Wrappers {

  /** A value that may be absent: JavaScript's `undefined`/`null` for an optional field. */
  datatype Option<+T> = None | Some(value: T)

  /** The outcome of an operation that may throw or reject with an error. */
  datatype Result<+R, +E> = Success(value: R) | Failure(error: E)
}
