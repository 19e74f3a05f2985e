/** Failure-compatible result types shared by every module of the model. */
module Wrappers {

  /** A value that may be absent (JavaScript's `undefined`). */
  datatype Option<+T> = None | Some(value: T)

  /** The outcome of an operation that may throw: the value, or the message thrown. */
  datatype Result<+T> = Ok(value: T) | Err(message: string)
}
