/** The optional value used throughout the model wherever the program
    produces "no value" (`None`, `NaN`, an empty label) instead of a number. */
module Wrappers {

  datatype Option<+T> = None | Some(value: T) {

    /** The wrapped value, or `default` when there is none. */
    function GetOr(default: T): T {
      match this
      case Some(v) => v
      case None => default
    }
  }
}
