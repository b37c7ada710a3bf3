/** Failure-compatible wrappers shared by the other modules. */
module Wrappers {

  /** A value that may be missing (Python's None, or an unreachable distance). */
  datatype Option<+T> = None | Some(value: T)

  /** The outcome of an operation that can raise instead of returning. */
  datatype Result<+T, +E> = Ok(value: T) | Err(error: E)
}
