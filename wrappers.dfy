/** Option and Result datatypes shared by the modules of this model. */
module Wrappers {

  datatype Option<+T> = None | Some(value: T)

  /** The outcome of a TypeScript call that either returns normally or throws
      an `Error` with a message. */
  datatype Result<+T> = Ok(value: T) | Err(message: string)

  /** The outcome of a `void` TypeScript function that may throw. */
  datatype Outcome = Pass | Fail(message: string)
}
