/** Optional values and success/failure results. */
module Wrappers {

  /** A value that may be absent; `None` stands for an undefined result. */
  datatype Option<+T> = None | Some(value: T)

  /** The outcome of an operation that may fail with an error of type `E`. */
  datatype Result<+T, +E> = Success(value: T) | Failure(error: E)
}
