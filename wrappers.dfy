/** Small failure-carrying datatypes shared by every module of the model. */
module Wrappers {

  /** A value that may be missing: Python's `None` or an absent dictionary key. */
  datatype Option<+T> = None | Some(value: T)

  /** The outcome of an operation that can fail with a described error. */
  datatype Result<+T, +E> = Success(value: T) | Failure(error: E)
}
