/** Optional values and results that carry either a value or an error. */
module Wrappers {

  /** A value that may be absent: JavaScript's `undefined` becomes `None`. */
  datatype Option<+T> = None | Some(value: T)

  /** The outcome of an operation that either produces a value or fails with an error. */
  datatype Result<+R, +E> = Success(value: R) | Failure(error: E)
}
