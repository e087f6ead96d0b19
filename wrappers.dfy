/** Failure-carrying wrappers shared by the other modules. A thrown `Error`
    of the source becomes `Failure(message)` / `Fail(message)`. */
module Wrappers {

  datatype Option<+T> = None | Some(value: T)

  /** The outcome of a call that either returns a value or throws an error
      carrying only its message. */
  datatype Result<+T> = Success(value: T) | Failure(error: string)

  /** The outcome of a call that returns nothing or throws. */
  datatype Outcome = Pass | Fail(error: string)
}
