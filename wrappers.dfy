/** Optional values, used wherever the source returns None. */
module Wrappers {

  datatype Option<+T> = None | Some(value: T) {

    /** The value in Some, or `default` for None. */
    function GetOr(default: T): T {
      match this
      case Some(v) => v
      case None => default
    }
  }
}
