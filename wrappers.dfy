/** Option, Result and Outcome, used for the nullable lookups and the thrown exceptions of the services. */
module Wrappers {

  datatype Option<+T> = None | Some(value: T)

  /** An operation either succeeds with a value or fails with the exception the source throws. */
  datatype Result<+T, +E> = Ok(value: T) | Err(error: E)

  /** The same for an operation that returns nothing on success. */
  datatype Outcome<+E> = Pass | Fail(error: E)
}
