/** Option and Result, the error-carrying values used across the model. */
module Wrappers {

  datatype Option<+T> = None | Some(value: T)

  /** `Failure` stands for a path on which the tool writes a diagnostic and exits with status 1. */
  datatype Result<+R, +E> = Success(value: R) | Failure(error: E)
}
