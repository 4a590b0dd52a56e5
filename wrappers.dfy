/** Optional values and results with an error, used for pandas' missing cells and for failures. */
module Wrappers {

  /** A value that may be absent (a pandas NaN cell, an openpyxl empty cell). */
  datatype Option<+T> = None | Some(value: T)

  /** A computation that either succeeds with a value or fails with an error. */
  datatype Result<+T, +E> = Success(value: T) | Failure(error: E)
}
