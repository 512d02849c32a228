/** Option and Result values, used wherever the Python code returns None or raises. */
module Wrappers {

  datatype Option<+T> = None | Some(value: T)

  /** `Failure` stands for a Python exception that the caller catches. */
  datatype Result<+T, +E> = Success(value: T) | Failure(error: E)
}
