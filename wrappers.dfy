/** The Option datatype shared by every module. */
module Wrappers {

  /** A value that may be absent: JSON null, a missing key, an undefined prop. */
  datatype Option<+T> = None | Some(value: T) {

    /** The wrapped value, or `default` when absent. */
    function GetOr(default: T): T {
      match this
      case Some(v) => v
      case None => default
    }
  }
}
