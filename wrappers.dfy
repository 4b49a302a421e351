/** Failure-carrying values shared by the other modules. */
module Wrappers {

  /** A value that may be absent, as a Go pointer or a `value, ok` pair may be. */
  datatype Option<+T> = None | Some(value: T)

  /** The `(value, error)` pair a Go function returns: exactly one side is meaningful. */
  datatype Result<+T, +E> = Ok(value: T) | Err(error: E)
}
