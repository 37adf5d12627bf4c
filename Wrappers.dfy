/** Option and Result: the absent-or-present values and the throw-or-return outcomes of the client. */
module Wrappers {

  datatype Option<+T> = None | Some(value: T) {
    function GetOr(default: T): T {
      match this
      case Some(v) => v
      case None => default
    }
  }

  /** A call that either returns `value` or throws an `Error` whose message is `error`. */
  datatype Result<+R, +E> = Success(value: R) | Failure(error: E)
}
