/** Optional values and results with an error case. */
module Outcomes {

  /** A value that may be missing: a storage key that was never written, or was removed. */
  datatype Option<+T> = None | Some(value: T)

  /** The outcome of an operation that can fail with an error of type E. */
  datatype Result<+T, +E> = Ok(value: T) | Err(error: E)
}
