/**
 Failure-carrying values used across the model: `Option` for a value that may
 be absent (a Java `null`, or a parse that throws), and `Outcome` for a check
 that either passes or fails with an error.
 */
module Wrappers {

  datatype Option<+T> = None | Some(value: T) {

    /** The carried value, or `default` when there is none. */
    function GetOr(default: T): T {
      match this
      case Some(v) => v
      case None => default
    }
  }

  datatype Outcome<+E> = Pass | Fail(error: E)
}
