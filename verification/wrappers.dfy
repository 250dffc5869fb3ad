/** Option and Result datatypes shared by the modules. */
module Wrappers {

  /** Python's `None` versus a present value. */
  datatype Option<+T> = None | Some(value: T)

  /** A computed value, or the exception the Python code raises instead of returning. */
  datatype Result<+R, +E> = Success(value: R) | Failure(error: E)
}
