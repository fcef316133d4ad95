/** The optional values the components keep in state (`T | null`, `T | undefined`). */
module Wrappers {

  datatype Option<+T> = None | Some(value: T) {

    /** Returns the value in Some or a default value if None (the `??` operator). */
    function GetOr(default: T): T {
      match this
      case Some(v) => v
      case None() => default
    }
  }
}
