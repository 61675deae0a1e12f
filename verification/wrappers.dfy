/** Optional values and results with an error, shared by every module of the model. */
module Wrappers {

  /** A value that may be absent (JavaScript's `null` / `undefined`). */
  datatype Option<+T> = None | Some(value: T)

  /** The outcome of an operation that may reject with an error. */
  datatype Result<+R, +E> = Success(value: R) | Failure(error: E)
}
