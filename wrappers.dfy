/** The optional values of the dashboard's data: a field that may be left out of a
    command, a `null` date, a photo viewer that is closed. */
module Wrappers {

  datatype Option<+T> = None | Some(value: T) {

    /** The wrapped value, or `default` when there is none. */
    function GetOr(default: T): T {
      match this
      case Some(v) => v
      case None => default
    }
  }
}
