/** Option, where the source returns nil or a comma-ok pair, and Result,
    where it returns a value and an error. */
module Wrappers {
  datatype Option<+T> = None | Some(value: T)

  datatype Result<+T, +E> = Success(value: T) | Failure(error: E)
}
