/** Failure-carrying datatypes shared by the other modules. */
module Wrappers {

  datatype Option<+T> = None | Some(value: T)

  datatype Result<+T, +E> = Success(value: T) | Failure(error: E)

  /** A step that yields nothing but may fail, like `anyhow::Result<()>`. */
  datatype Outcome<+E> = Pass | Fail(error: E)
}
