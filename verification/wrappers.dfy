/** Kotlin's nullable values, as an Option datatype. */
module Wrappers {

  /** `None` stands for Kotlin's `null`. */
  datatype Option<+T> = None | Some(value: T) {

    /** Kotlin's elvis operator `x ?: default`. */
    function GetOr(default: T): T {
      match this
      case Some(v) => v
      case None => default
    }
  }
}
