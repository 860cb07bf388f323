/** Failure-carrying values used where the original program returns nothing or stops. */
module Outcomes {

  /** A value that may be absent (Python's implicit `None`). */
  datatype Option<+T> = None | Some(value: T)

  /** A value, or the error that stopped its computation. */
  datatype Result<+T, +E> = Success(value: T) | Failure(error: E)
}
