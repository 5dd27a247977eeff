/** Option, used wherever the source has a value that may be missing (null, undefined). */
module Wrappers {
  datatype Option<+T> = None | Some(value: T) {
    /** JavaScript's `x || d` and PHP's `x ?? d` on a possibly missing value. */
    function GetOr(default: T): T {
      match this
      case Some(v) => v
      case None => default
    }
  }
}
