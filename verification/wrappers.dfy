/** Option and Result, standing in for the null references and the
    exceptions of the runner. */
module Wrappers {

  /** A value or nothing: a reference that may be null. */
  datatype Option<+T> = None | Some(value: T)

  /** A successful value or the fault that stopped the computation. */
  datatype Result<+R, +E> = Success(value: R) | Failure(error: E)
}
