/** Optional values and success-or-failure results, shared by every module. */
module Wrappers {

  /** A value that may be absent (`null` / `undefined` in the front end). */
  datatype Option<+T> = None | Some(value: T)

  /** The outcome of an operation that can throw: its value, or the error it raised. */
  datatype Result<+T, +E> = Success(value: T) | Failure(error: E)
}
