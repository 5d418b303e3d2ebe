/** Optional values and Go-style (value, error) results. */
module Wrappers {

  /** A value that may be absent (a Go `nil` or a failed parse). */
  datatype Option<+T> = None | Some(value: T)

  /** A value or an error, for Go's `(value, error)` returns. */
  datatype Result<+R, +E> = Ok(value: R) | Err(error: E)
}
