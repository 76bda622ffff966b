/** Optional values (JavaScript's `null`/`undefined`) and results with an error case. */
module Wrappers {

  datatype Option<+T> = None | Some(value: T) {
    /** `x ?? default`: the value when present, the default otherwise. */
    function GetOr(default: T): T {
      if Some? then value else default
    }
  }

  datatype Result<+R, +E> = Success(value: R) | Failure(error: E)
}
