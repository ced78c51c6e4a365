/** Failure-carrying datatypes used for the exceptions and null returns of the modelled code. */
module Wrappers {

  /** A value that may be absent: Java's null or Python's None. */
  datatype Option<+T> = None | Some(value: T)

  /** Either a result or the error (exception) that replaced it. */
  datatype Result<+R, +E> = Success(value: R) | Failure(error: E)
}
