/** Optional values and results that carry either a value or an error. */
module Wrappers {

  /** A value that may be absent: a Python `None` or a missing dictionary key. */
  datatype Option<+T> = None | Some(value: T)

  /** A computation that produced a value, or raised an error carrying a message. */
  datatype Result<+T, +E> = Ok(value: T) | Err(error: E)
}
