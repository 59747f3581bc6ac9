/** Optional values and the outcome of a call that may raise. */
module Wrappers {

  /** A value that may be absent, as a Python attribute or `None`. */
  datatype Option<+T> = None | Some(value: T) {
    function GetOr(default: T): T {
      match this
      case Some(v) => v
      case None => default
    }
  }

  /** The outcome of a call that either returns a value or raises with a message. */
  datatype Result<+R> = Success(value: R) | Failure(error: string)
}
