/** Optional values and results with an error message, used across the model
    for JavaScript's `null`/`undefined` and for thrown errors. */
module Wrappers {

  datatype Option<+T> = None | Some(value: T) {
    function GetOr(default: T): T {
      match this
      case Some(v) => v
      case None => default
    }
  }

  datatype Result<+T> = Success(value: T) | Failure(error: string)
}
