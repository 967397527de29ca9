/** Failure-compatible wrappers: an optional value, a value-or-error, and a pass-or-error. */
module Wrappers {

  datatype Option<+T> = None | Some(value: T)

  datatype Result<+T, +E> = Success(value: T) | Failure(error: E)

  datatype Outcome<+E> = Pass | Fail(error: E)

  /** The Python exceptions the game engine can raise. */
  datatype Error = IndexError | ValueError | TypeError | NameError
}
