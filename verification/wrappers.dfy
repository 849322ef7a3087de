/** Optional values, standing in for JavaScript's `undefined`/`null` where the
    source distinguishes "absent" from "present". */
module Wrappers {

  datatype Option<+T> = None | Some(value: T) {

    /** The wrapped value, or `default` when absent. */
    function GetOr(default: T): T {
      match this
      case Some(v) => v
      case None => default
    }
  }
}
