/** The Option datatype shared by the models. */
module Wrappers {

  /** A value that may be absent: the source's `undefined`, `null` or `None`. */
  datatype Option<+T> = None | Some(value: T) {
    function GetOr(default: T): T {
      if Some? then value else default
    }
  }
}
