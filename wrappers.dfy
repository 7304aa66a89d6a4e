/** An optional value: a JavaScript `null`/`undefined` or a missing search result. */
module Wrappers {

  datatype Option<T> = None | Some(value: T) {

    /** The `??` operator: the value if present, otherwise `default`. */
    function GetOr(default: T): T {
      match this
      case Some(v) => v
      case None => default
    }
  }
}
