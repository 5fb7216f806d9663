/** The optional value used wherever the client reads something that may be absent:
    a missing storage key, a missing error field, a failed backend call. */
module Wrappers {

  datatype Option<+T> = None | Some(value: T) {

    /** The value, or `default` when there is none. */
    function GetOr(default: T): T {
      match this
      case Some(v) => v
      case None => default
    }
  }
}
