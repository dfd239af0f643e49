/** Failure-compatible datatypes shared by the models of every component. */
module Wrappers {

  /** A value that Python or TypeScript would spell `T | None`. */
  datatype Option<+T> = None | Some(value: T)

  /** The outcome of a call that returns a value or reports an error. */
  datatype Result<+T, +E> = Ok(value: T) | Err(error: E)
}
