/** Optional values and results: `undefined`/`null` in the application become
    `None`, and a thrown `Error` becomes a `Failure`. */
module Wrappers {

  datatype Option<+T> = None | Some(value: T) {

    /** The value held, or `default` when there is none. */
    function GetOr(default: T): T {
      match this
      case Some(v) => v
      case None => default
    }
  }

  datatype Result<+R, +E> = Success(value: R) | Failure(error: E)

  /** JavaScript truthiness of an optional string: `undefined` and `''` are falsy. */
  predicate Present(o: Option<string>) {
    o.Some? && o.value != ""
  }
}
