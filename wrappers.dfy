/** Optional values and success-or-error results, used wherever the analyzer reads a
    field that may be absent or reports an error through its callback. */
module Wrappers {

  /** A value that may be missing (`undefined` or `null` in the analyzer). */
  datatype Option<+T> = None | Some(value: T)

  /** Exactly one of a value or an error, never both. */
  datatype Result<+T, +E> = Success(value: T) | Failure(error: E)
}
