/** Option and success/failure wrappers shared by the cache and its consumers. */
module Wrappers {

  /** A value that may be missing (`undefined` or `null` in the storefront's data). */
  datatype Option<+T> = None | Some(value: T) {
    function GetOr(default: T): T {
      match this
      case Some(v) => v
      case None => default
    }
  }

  /** How an asynchronous producer settled: resolved with a value or rejected with an error. */
  datatype Outcome<+T, +E> = Success(value: T) | Failure(error: E)
}
