/** Small failure-carrying datatypes shared by the model. */
module Wrappers {

  /** A value that may be absent: C#'s `null` reference or an empty `int?`. */
  datatype Option<+T> = None | Some(value: T)

  /** The outcome of an operation that yields a value or raises an error. */
  datatype Result<+R, +E> = Success(value: R) | Failure(error: E)

  /** The outcome of an operation that yields nothing or raises an error. */
  datatype Outcome<+E> = Pass | Fail(error: E)
}
