/** The optional value used wherever the source returns `undefined` for "nothing found". */
module Wrappers {

  datatype Option<+T> = None | Some(value: T) {

    /** The JavaScript idiom `x ?? d` (and `x || d` on a value that cannot be falsy). */
    function GetOr(default: T): T {
      match this
      case Some(v) => v
      case None => default
    }
  }
}
