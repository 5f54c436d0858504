/** Optional values, standing in for Go's nil-able pointers throughout the model. */
module Wrappers {

  /** `None` plays the part of a nil pointer; `Some(v)` of a pointer to `v`. */
  datatype Option<+T> = None | Some(value: T) {

    /** Returns the value, or `default` when there is none. */
    function GetOr(default: T): T {
      match this
      case Some(v) => v
      case None => default
    }
  }
}
