/** Option, as used for Python's `None`-or-value returns. */
module Wrappers {

  datatype Option<+T> = None | Some(value: T) {

    /** The value of `Some`, or `default` for `None` (Python's `x if x is not None else d`). */
    function GetOr(default: T): T {
      match this
      case Some(v) => v
      case None => default
    }
  }
}
