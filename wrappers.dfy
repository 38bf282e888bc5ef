/** Failure-compatible wrappers used by the line decoder. */
module Wrappers {

  /** An optional value: the outcome of a search that may find nothing. */
  datatype Option<+T> = None | Some(value: T)

  /** The outcome of a conversion that may fail with an error value. */
  datatype Result<+R, +E> = Success(value: R) | Failure(error: E)
}
