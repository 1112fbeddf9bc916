/** Optional values and results of operations that may fail. */
module Wrappers {

  /** A value that may be absent; for a collaborator call, None means the call threw. */
  datatype Option<+T> = None | Some(value: T)

  /** The outcome of a step that either produces a value or fails with an error. */
  datatype Result<+R, +E> = Success(value: R) | Failure(error: E)
}
