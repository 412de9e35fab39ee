/** The optional value used for JSON fields that may be missing or null. */
module Wrappers {

  datatype Option<+T> = None | Some(value: T) {

    /** The value in Some, or the given default when None. */
    function GetOr(default: T): T {
      match this
      case Some(v) => v
      case None => default
    }
  }
}
