/** The Option, Result and Outcome datatypes used for the exceptions and missing values of the modelled code. */
module Wrappers {

  datatype Option<+T> = None | Some(value: T)

  datatype Result<+R, +E> = Success(value: R) | Failure(error: E)

  /** An operation that either completes or raises `error`, with no value of its own. */
  datatype Outcome<+E> = Pass | Fail(error: E)
}
