/** Optional values: a JavaScript `undefined` (a missing array element, an
    absent property, `NaN` from a failed parse) becomes `None`. */
module Wrappers {

  datatype Option<+T> = None | Some(value: T) {

    /** The value, or `default` when there is none. */
    function GetOr(default: T): T {
      match this
      case Some(v) => v
      case None => default
    }
  }
}
