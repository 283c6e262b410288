/** Option and Result, the failure-carrying wrappers used across the model. */
module Wrappers {

  datatype Option<+T> = None | Some(value: T)

  /** `Failure` carries the message of the assertion or exception that aborted an operation. */
  datatype Result<+R, +E> = Success(value: R) | Failure(error: E)
}
