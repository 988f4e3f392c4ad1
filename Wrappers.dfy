/** Optional values and success/failure results, used for Swift's `T?` and `throws`. */
module Wrappers {

  datatype Option<+T> = None | Some(value: T)

  /** The outcome of a Swift function that `throws`: a value or the error it threw. */
  datatype Result<+T, +E> = Success(value: T) | Failure(error: E)

  /** The outcome of a Swift function that `throws` and returns nothing. */
  datatype Outcome<+E> = Pass | Fail(error: E)
}
