/** Failure-carrying results used by the handlers of the order backend. */
module Wrappers {

  datatype Option<+T> = None | Some(value: T)

  /** The outcome of a request: a success value or a classified error. */
  datatype Result<+R, +E> = Success(value: R) | Failure(error: E)
}
