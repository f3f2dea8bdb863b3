/** Failure-carrying results used throughout the model, standing for Kotlin's
    nullable types and thrown exceptions. */
module Wrappers {

  datatype Option<+T> = None | Some(value: T)

  datatype Result<+T, +E> = Ok(value: T) | Err(error: E)

  /** The outcome of an operation that returns Unit or throws. */
  datatype Outcome<+E> = Pass | Fail(error: E)
}
