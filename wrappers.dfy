/** The optional-value datatype used for Kotlin's nullable values and for
    intent extras that may be absent. */
module Wrappers {

  datatype Option<+T> = None | Some(value: T) {

    /** Kotlin's `?:` with a default: the value if present, else `default`. */
    function GetOr(default: T): T {
      match this
      case Some(v) => v
      case None => default
    }
  }

  /** How a handler ends: normally, or with an exception escaping it. */
  datatype Outcome = Finished | Threw
}
