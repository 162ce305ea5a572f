/** Failure-carrying results shared by every module. */
module Wrappers {

  datatype Option<+T> = None | Some(value: T)

  /** A value, or the message with which the original aborts. */
  datatype Result<+T> = Ok(value: T) | Rejected(reason: string)
}
