/** The optional value used where the source returns `undefined` or skips a step. */
module Wrappers {

  datatype Option<+T> = None | Some(value: T) {

    /** The value, or `default` when there is none (a default parameter, which applies only to `undefined`). */
    function GetOr(default: T): T {
      match this
      case Some(v) => v
      case None => default
    }
  }

  /** An optional JavaScript string is truthy when it is set and non-empty. */
  predicate Given(v: Option<string>) {
    v.Some? && v.value != ""
  }
}
