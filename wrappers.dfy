/** Optional values and results with an error message, shared by every module. */
module Wrappers {

  datatype Option<+T> = None | Some(value: T)

  /** The outcome of an operation that reports a human-readable message on failure. */
  datatype Result<+R> = Success(value: R) | Failure(error: string)
}
