/** Option and Result datatypes shared by the other modules. */
module Wrappers {

  /** A value that may be absent: a missing file, a cell read as missing, no match. */
  datatype Option<+T> = None | Some(value: T)

  /** The outcome of an operation that may raise in the source. */
  datatype Result<+R, +E> = Success(value: R) | Failure(error: E)
}
