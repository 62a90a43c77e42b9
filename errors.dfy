/** Failure-carrying results used in place of the Java exceptions of the core. */
module Errors {

  /** Outcome of a command that returns nothing on success (a `void` method that may throw). */
  datatype Outcome<+E> = Pass | Fail(error: E)

  /** Result of a query that returns a value on success (a method that may throw). */
  datatype Result<+T, +E> = Ok(value: T) | Err(error: E)
}
