/** Failure-carrying values used in place of the exceptions the modelled code raises. */
module Wrappers {

  /** A value that may be absent, as an optional keyword argument. */
  datatype Option<+T> = None | Some(value: T)

  /** The outcome of an operation that either returns a value or raises an error. */
  datatype Result<+T, +E> = Ok(value: T) | Err(error: E)
}
