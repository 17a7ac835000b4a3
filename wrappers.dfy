/** Failure-carrying results shared by every module of the model. */
module Wrappers {

  datatype Option<+T> = None | Some(value: T)

  /** The outcome of an operation that may fail recoverably (`Err`, a Go `error`)
      or end the whole process (`Fatal`, a call to `logger.Fatalf`). */
  datatype Result<+T> = Ok(value: T) | Err(message: string) | Fatal(message: string)
}
