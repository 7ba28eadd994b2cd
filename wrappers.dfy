/** Option, Result and Outcome: the model's stand-ins for Java's null and exceptions. */
module Wrappers {

  /** A value that may be absent (a Java reference that may be null). */
  datatype Option<+T> = None | Some(value: T)

  /** The value of a call that either returns or throws. */
  datatype Result<+T, +E> = Ok(value: T) | Err(error: E)

  /** The outcome of a `void` call that either returns or throws. */
  datatype Outcome<+E> = Pass | Fail(error: E)
}
