/** Optional values and results with an error, used for the source's `null` returns and thrown errors. */
module Wrappers {

  /** A value that may be absent (the source's `null` / `undefined`). */
  datatype Option<+T> = None | Some(value: T) {
    function GetOr(default: T): T {
      match this
      case Some(v) => v
      case None => default
    }
  }

  /** Either a value or the error the source would throw. */
  datatype Result<+T, +E> = Success(value: T) | Failure(error: E)
}
