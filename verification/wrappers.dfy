/** Option and Result, used for JavaScript's `undefined`/NaN and for thrown errors. */
module Wrappers {

  datatype Option<+T> = None | Some(value: T)

  /** A call that either returns a value or throws (the error message). */
  datatype Result<+R, +E> = Success(value: R) | Failure(error: E)
}
