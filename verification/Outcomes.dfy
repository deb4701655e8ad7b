/** Optional values and the three ways a Go call in this system can end. */
module Outcomes {

  /** A pointer that may be nil, or a map lookup that may miss. */
  datatype Option<+T> = None | Some(value: T)

  /** A call returns a value, returns an error, or panics. */
  datatype Outcome<+T> = Ok(value: T) | Err(error: string) | Panic
}
