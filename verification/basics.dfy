/** Failure-compatible wrappers shared by every module of the model. */
module Basics {

  /** An optional value: JavaScript's `undefined` versus a present value. */
  datatype Option<+T> = None | Some(value: T) {
    function GetOr(default: T): T {
      match this
      case Some(v) => v
      case None => default
    }
  }

  /** The outcome of an operation that can throw: `Failure` carries the thrown message. */
  datatype Result<+R> = Success(value: R) | Failure(error: string)
}
