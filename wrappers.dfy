/** Failure-compatible return values shared by the whole model. */
module Wrappers {

  /** A value that may be absent (Python's `Optional[...]` / `None`). */
  datatype Option<+T> = None | Some(value: T)

  /** The outcome of an operation that can fail (a raised exception in the source). */
  datatype Result<+T, +E> = Ok(value: T) | Err(error: E)
}
