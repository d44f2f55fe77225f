/** Optional values and results shared by the whole model. */
module Wrappers {

  /** A value that may be absent, as returned by a cache lookup. */
  datatype Option<+T> = None | Some(value: T)

  /** Either a successful value or an error, as returned by the Go functions
      with a `(T, error)` result pair. */
  datatype Result<+R, +E> = Success(value: R) | Failure(error: E)
}
