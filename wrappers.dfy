/** Option and Result, the failure-carrying values used across the model. */
module Wrappers {

  /** `None` stands for JavaScript's `null` or `undefined` where the source treats them alike. */
  datatype Option<+T> = None | Some(value: T) {
    function GetOr(default: T): T {
      match this
      case Some(v) => v
      case None => default
    }
  }

  /** A value, or the exception a JavaScript expression would throw. */
  datatype Result<+R, +E> = Success(value: R) | Failure(error: E)
}
