/** Option and Result values used for "may be absent" fields and for the
    error returns of the request handlers. */
module Wrappers {

  datatype Option<+T> = None | Some(value: T) {
    /** The value, or `default` when there is none (JavaScript's `x || default`
        for values that are never falsy when present). */
    function GetOr(default: T): T {
      match this
      case Some(v) => v
      case None => default
    }

    /** `this` when it holds a value, otherwise `other`. */
    function OrElse(other: Option<T>): Option<T> {
      if Some? then this else other
    }
  }

  datatype Result<+R, +E> = Success(value: R) | Failure(error: E)

  /** A request-body value a handler tells apart as absent (`undefined`),
      `null` or given. */
  datatype Body<+T> = Absent | Null | Given(value: T)
}
