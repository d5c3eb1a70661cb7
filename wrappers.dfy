/** JavaScript's `undefined` and thrown errors, made explicit. */
module Wrappers {

  /** A value that may be JavaScript `undefined` (None). */
  datatype Option<+T> = None | Some(value: T)

  /** The outcome of a step that either produces a value or throws. */
  datatype Result<+R, +E> = Success(value: R) | Failure(error: E)
}
