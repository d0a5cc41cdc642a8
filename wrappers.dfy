/** Option and Result: the "missing cell" and "raised error" of the screening scripts. */
module Wrappers {

  /** A value that may be absent: a NaN / None cell, or a key that is not there. */
  datatype Option<+T> = None | Some(value: T)

  /** The outcome of an operation that the source lets raise an exception. */
  datatype Result<+T, +E> = Success(value: T) | Failure(error: E)
}
