/** Failure-carrying datatypes shared by the model. The source signals every error by
    throwing; here an operation that may throw returns one of these instead. */
module Wrappers {

  datatype Option<+T> = None | Some(value: T)

  datatype Result<+T, +E> = Ok(value: T) | Err(error: E)

  /** The outcome of an operation that either completes or throws, and returns nothing. */
  datatype Outcome<+E> = Pass | Fail(error: E)
}
