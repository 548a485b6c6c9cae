/** Failure-carrying values shared by every module of the model. */
module Wrappers {

  /** A value that may be missing: JavaScript's `undefined` or a `find` that found nothing. */
  datatype Option<+T> = None | Some(value: T)

  /** A computation that either yields a value or throws an exception with a message. */
  datatype Result<+T> = Ok(value: T) | Err(error: string)
}
