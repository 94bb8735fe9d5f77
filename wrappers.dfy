/** Option and Result values standing in for Java's null references and exceptions. */
module Wrappers {

  /** A Java reference that may be null. */
  datatype Option<+T> = None | Some(value: T)

  /** A computation that either returns a value or throws an exception of type E. */
  datatype Result<+T, +E> = Ok(value: T) | Throw(error: E)
}
