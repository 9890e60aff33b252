/** Option and Result: the model's stand-ins for Java's nullable references,
    java.util.Optional and IllegalArgumentException-raising constructors. */
module Wrappers {

  /** A value that may be absent (a Java `null` or an empty `Optional`). */
  datatype Option<+T> = None | Some(value: T)

  /** The outcome of a validating constructor: the new value, or the check that rejected it. */
  datatype Result<+T, +E> = Success(value: T) | Failure(error: E)
}
