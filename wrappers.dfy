/** Option and Result types used to model Java's null references and thrown exceptions. */
module Wrappers {

  datatype Option<+T> = None | Some(value: T)

  /** The outcome of a Java call: a value, or the exception it throws. */
  datatype Result<+T, +E> = Ok(value: T) | Err(error: E)

  /** The outcome of a Java `void` call: it returns, or it throws. */
  datatype Outcome<+E> = Pass | Fail(error: E)
}
