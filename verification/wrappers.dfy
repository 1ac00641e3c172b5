/** Optional values and value-or-error results shared by the model's modules. */
module Wrappers {

  /** A Go value that may be absent (`nil`). */
  datatype Option<+T> = None | Some(value: T)

  /** A Go `(value, error)` pair: exactly one of the two is meaningful. */
  datatype Result<+R, +E> = Success(value: R) | Failure(error: E)
}
