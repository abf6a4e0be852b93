/** The optional value used wherever the source has `T | null`, `T | undefined`
    or an optional property. */
module Wrappers {

  datatype Option<+T> = None | Some(value: T) {

    function GetOr(default: T): T {
      match this
      case Some(v) => v
      case None => default
    }
  }
}
