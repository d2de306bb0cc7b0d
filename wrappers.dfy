/** Optional values: the model's stand-in for JavaScript's `undefined`/`null`
    results and for operations that throw. */
module Wrappers {

  datatype Option<+T> = None | Some(value: T) {

    function GetOr(default: T): T {
      match this
      case Some(v) => v
      case None => default
    }
  }
}
