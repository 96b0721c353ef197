/** Option and Result, standing for the source's nullable references and thrown exceptions. */
module Wrappers {

  /** `None` is a null reference. */
  datatype Option<+T> = None | Some(value: T)

  /** `Failure` is an exception that leaves the member. */
  datatype Result<+T, +E> = Success(value: T) | Failure(error: E)
}
