/** Option and Result, the two shapes every lookup and every service call of the model returns. */
module Wrappers {

  /** A value that may be absent (a Mongo lookup that found nothing, an unset request field). */
  datatype Option<+T> = None | Some(value: T) {
    function GetOr(default: T): T {
      match this
      case Some(v) => v
      case None => default
    }
  }

  /** The outcome of a service call: a value, or the error the service throws. */
  datatype Result<+R, +E> = Success(value: R) | Failure(error: E)
}
