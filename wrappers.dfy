/** Failure-carrying return values: the model's stand-in for `null` results and thrown exceptions. */
module Wrappers {

  /** A value that may be absent (`null` / `undefined` in the service). */
  datatype Option<+T> = None | Some(value: T)

  /** The outcome of an operation that either returns a value or throws an error. */
  datatype Result<+T, +E> = Ok(value: T) | Err(error: E)
}
