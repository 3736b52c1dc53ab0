/** An optional value shared by the other modules. */
module Wrappers {

  /** A value that may be absent: a missing dictionary key, a session
      variable not yet set, a decoding that failed. */
  datatype Option<+T> = None | Some(value: T) {

    /** The wrapped value, or `default` when there is none. */
    function GetOr(default: T): T {
      match this
      case Some(v) => v
      case None => default
    }
  }
}
