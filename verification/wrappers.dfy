/** Optional values: an environment variable that may be unset, a route without an alias. */
module Wrappers {

  datatype Option<+T> = None | Some(value: T) {

    /** The held value when there is one, otherwise the caller's fallback. */
    function GetOr(default: T): (r: T)
      ensures Some? ==> r == value
      ensures None? ==> r == default
    {
      match this
      case Some(v) => v
      case None => default
    }
  }
}
