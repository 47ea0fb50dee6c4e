/** Option and Result, the two failure-carrying datatypes the model uses. */
module Wrappers {

  datatype Option<+T> = None | Some(value: T)

  /** A value, or the error that stopped its computation (an exception in the C# program). */
  datatype Result<+R, +E> = Success(value: R) | Failure(error: E)
}
