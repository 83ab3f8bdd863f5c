/** Failure-carrying results, for the source's optionals, exceptions and `return false` paths. */
module Wrappers {
  datatype Option<+T> = None | Some(value: T)

  datatype Result<+T, +E> = Success(value: T) | Failure(error: E)
}
