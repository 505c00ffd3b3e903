/** Option and Result, standing for Java's nullable references and thrown exceptions. */
module Wrappers {

  /** A value that may be absent: `None` plays the part of Java's `null`. */
  datatype Option<+T> = None | Some(value: T)

  /** The outcome of an operation that can throw: `Err` carries the exception kind. */
  datatype Result<+T, +E> = Ok(value: T) | Err(error: E)
}
