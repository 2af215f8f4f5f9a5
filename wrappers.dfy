/** Failure-carrying values shared by the whole model. */
module Wrappers {

  /** A value that may be missing; `None` plays the part of Go's nil. */
  datatype Option<+T> = None | Some(value: T)

  /** The outcome of a call into a collaborator: a value or an error text. */
  datatype Result<+T, +E> = Ok(value: T) | Err(error: E)
}
