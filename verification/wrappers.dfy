/** Failure-carrying datatypes shared by every module of the model. */
module Wrappers {

  /** A value that may be missing: JavaScript's `undefined`/`null` on the boundary. */
  datatype Option<+T> = None | Some(value: T)

  /** The outcome of a step that may throw: the value, or the error it throws. */
  datatype Result<+T, +E> = Ok(value: T) | Err(error: E)
}
