/** The two failure-compatible result types used throughout. */
module Wrappers {

  datatype Option<+T> = None | Some(value: T)

  /** An error return: the model keeps whether a call failed, never the message text. */
  datatype Result<+T> = Ok(value: T) | Err
}
