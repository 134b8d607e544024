/** Wrappers shared by the model: a nullable value, a value or an error, and
    a pass or an error for operations without a result. */
module Wrappers {

  /** A value that may be absent (Java `null`, Python `None`). */
  datatype Option<+T> = None | Some(value: T)

  /** A computed value or the error that stopped the computation. */
  datatype Result<+T, +E> = Ok(value: T) | Err(error: E)

  /** Completion of an operation that returns nothing, or the error it raised. */
  datatype Outcome<+E> = Pass | Fail(error: E)
}
