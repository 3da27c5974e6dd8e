/** Failure-carrying values shared by the classifier modules. */
module Outcomes {

  /** A value that may be absent: `null`/`undefined` in the modelled program. */
  datatype Option<+T> = None | Some(value: T)

  /** The outcome of a call that can throw: the value, or the message of the error. */
  datatype Result<+R> = Success(value: R) | Failure(error: string)
}
