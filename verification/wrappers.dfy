/** Optional values and results: Kotlin's nullable types and thrown errors. */
module Wrappers {

  /** A Kotlin nullable value: `None` is `null`. */
  datatype Option<+T> = None | Some(value: T) {

    function GetOr(default: T): T {
      match this
      case Some(v) => v
      case None => default
    }
  }

  /** Either a value or an error description. */
  datatype Result<+R, +E> = Success(value: R) | Failure(error: E)
}
