/** An optional value, for the places where the source reports absence: a
    missing JSON member, a rejected line, no upload. */
module Wrappers {
  datatype Option<+T> = None | Some(value: T) {
    function GetOr(default: T): T {
      match this
      case Some(v) => v
      case None => default
    }
  }
}
