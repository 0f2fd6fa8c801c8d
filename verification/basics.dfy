/** Failure-carrying values shared by every module of the model. */
module Basics {

  /** A value that may be absent: JavaScript's `null`/`undefined` results. */
  datatype Option<+T> = None | Some(value: T)

  /** The outcome of a computation that may throw. */
  datatype Result<+T> = Ok(value: T) | Err(message: string)
}
