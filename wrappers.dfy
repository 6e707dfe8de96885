/** Optional values and error-carrying results, standing in for Java's nullable references and thrown exceptions. */
module Wrappers {

  /** A value that may be absent: a Java reference that may be null, or an `Optional`. */
  datatype Option<+T> = None | Some(value: T)

  /** The outcome of an operation that returns a value or throws. */
  datatype Result<+T, +E> = Ok(value: T) | Err(error: E)

  /** The outcome of a `void` operation that returns normally or throws. */
  datatype Outcome<+E> = Pass | Fail(error: E)
}
