/** Failure-carrying return types used where the gate model raises. */
module Wrappers {

  datatype Option<+T> = None | Some(value: T)

  /** A value or the error that the operation raised instead. */
  datatype Result<+T, +E> = Ok(value: T) | Err(error: E)

  /** Success without a value, or the error that was raised. */
  datatype Outcome<+E> = Pass | Fail(error: E)
}
