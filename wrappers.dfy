/** Option and Result, the two failure-carrying shapes the model uses for
    JavaScript's `undefined` and for thrown errors. */
module Wrappers {

  /** `None` stands for a JavaScript `undefined`. */
  datatype Option<+T> = None | Some(value: T) {
    function GetOr(default: T): T {
      match this
      case Some(v) => v
      case None => default
    }
  }

  /** `Failure` stands for an exception thrown with the carried message. */
  datatype Result<+R, +E> = Success(value: R) | Failure(error: E)
}
