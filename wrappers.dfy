/** Optional values and fallible results, used wherever the source returns
    `undefined`/`null` or throws. */
module Wrappers {

  datatype Option<+T> = None | Some(value: T) {
    /** `x ?? d` / `x || d` for a value that is either present or missing. */
    function GetOr(default: T): T {
      match this
      case Some(v) => v
      case None => default
    }
  }

  /** `Failure` carries the message of the error the source throws. */
  datatype Result<+R> = Success(value: R) | Failure(error: string)
}
