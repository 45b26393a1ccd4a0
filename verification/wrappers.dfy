/** Python's `None` and the values that may be missing. */
module Wrappers {

  datatype Option<+T> = None | Some(value: T) {

    /** The value, or `default` for `None` (Python's `x or default`). */
    function GetOr(default: T): T {
      match this
      case Some(v) => v
      case None => default
    }
  }
}
