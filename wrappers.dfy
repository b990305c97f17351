/** Failure-carrying return types shared by the modules of the bot. */
module Wrappers {

  datatype Option<+T> = None | Some(value: T)

  /** The value of a computation that either succeeds or throws. */
  datatype Result<+T, +E> = Success(value: T) | Failure(error: E)

  /** The outcome of a computation that returns nothing or throws. */
  datatype Outcome<+E> = Pass | Fail(error: E)
}
