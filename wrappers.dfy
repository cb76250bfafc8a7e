/** Option and Result, the two failure-carrying types the model uses. */
module Wrappers {

  /** `undefined`/`null` versus a present value. */
  datatype Option<+T> = None | Some(value: T)

  /** A call that either returns normally or throws an error value. */
  datatype Result<+R, +E> = Success(value: R) | Failure(error: E)
}
