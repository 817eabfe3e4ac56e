/** Option, the stock "value or nothing" wrapper, used wherever the
    JavaScript returns `undefined`/`null` or throws on a missing value. */
module Wrappers {

  datatype Option<+T> = None | Some(value: T) {

    /** The value, or `default` when absent: JavaScript's `x ?? default`. */
    function GetOr(default: T): T {
      match this
      case Some(v) => v
      case None => default
    }
  }
}
