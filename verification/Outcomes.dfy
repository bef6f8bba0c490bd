/** Optional values and results, shared by every other module. */
module Outcomes {

  /** A value that may be absent. */
  datatype Option<+T> = None | Some(value: T)

  /** A value or an error, for Go's (value, error) pairs. */
  datatype Result<+T, +E> = Ok(value: T) | Err(error: E)
}
