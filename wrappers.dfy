/** Option and Result values for lookups that may miss and calls that may throw. */
module Wrappers {

  datatype Option<+T> = None | Some(value: T)

  /** A call that either returns a value or throws (the error carries a message). */
  datatype Result<+T> = Success(value: T) | Failure(error: string)
}
