/** The optional-value datatype used for every `?:` field of the release
    shape and for every library call that may throw. */
module Wrappers {

  datatype Option<+T> = None | Some(value: T) {

    /** The held value, or `default` when nothing is held. */
    function GetOr(default: T): T {
      match this
      case Some(v) => v
      case None() => default
    }
  }
}
