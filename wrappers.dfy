/** Option and Result, used for Java's nullable references and for thrown
    exceptions that carry a message. */
module Wrappers {

  /** A Java reference that may be null: `None` is null. */
  datatype Option<+T> = None | Some(value: T)

  /** The outcome of a Java call that either returns a value or throws an
      exception; `Err` carries the exception's message. */
  datatype Result<+T, +E> = Ok(value: T) | Err(error: E)
}
