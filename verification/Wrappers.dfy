/** The two result shapes the models share. */
module Wrappers {
  datatype Option<+T> = None | Some(value: T)

  /** A call that returns, or ends in the named exception or failed assertion. */
  datatype Result<+T> = Ok(value: T) | Err(reason: string)
}
