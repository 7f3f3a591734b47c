/** Optional values: JavaScript's `undefined`/`null`/`NaN` where the dashboard's logic depends on them. */
module Wrappers {

  datatype Option<+T> = None | Some(value: T) {

    /** `x ?? d`, and `x || d` when every present value is truthy */
    function GetOr(default: T): T {
      match this
      case Some(v) => v
      case None => default
    }
  }
}
