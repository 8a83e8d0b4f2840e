/** Failure-carrying wrappers shared by every stage of the pipeline. */
module Wrappers {

  datatype Option<+T> = None | Some(value: T)

  /** The result of a stage that either produces a value or fails with an error. */
  datatype Result<+T, +E> = Ok(value: T) | Err(error: E)

  /** The result of a stage that produces nothing on success. */
  datatype Outcome<+E> = Pass | Fail(error: E)
}
