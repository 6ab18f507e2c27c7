/** The optional value that Python expresses with `None`. */
module Wrappers {
  datatype Option<+T> = None | Some(value: T) {
    /** The held value, or `default` for `None`. */
    function GetOr(default: T): T {
      match this
      case Some(v) => v
      case None => default
    }
  }
}
