/** Plain `Option` and `Result` datatypes, for Java's exceptions and for partial parses. */
module Wrappers {

  datatype Option<+T> = None | Some(value: T)

  /** The outcome of a Java operation that either returns a value or throws. */
  datatype Result<+T, +E> = Ok(value: T) | Err(error: E)
}
