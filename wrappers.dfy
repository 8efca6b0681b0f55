/** Option, Result and Outcome, used throughout the model. */
module Wrappers {

  datatype Option<+T> = None | Some(value: T)

  /** The outcome of an operation that yields a value or an error. */
  datatype Result<+R, +E> = Success(value: R) | Failure(error: E)

  /** The outcome of an operation that yields nothing or an error. */
  datatype Outcome<+E> = Pass | Fail(error: E)
}
