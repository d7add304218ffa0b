/** Option and Result, the two failure-carrying shapes the model uses. */
module Wrappers {

  datatype Option<+T> = None | Some(value: T)

  /** `Success` is the value an operation passes on; `Failure` the error it stops with. */
  datatype Result<+R, +E> = Success(value: R) | Failure(error: E)
}
