/** Optional values and results with an error, used for the optional fields of the
    stored records and for the error responses of the request handlers. */
module Wrappers {

  datatype Option<+T> = None | Some(value: T) {
    /** The value, or `default` when there is none (`x ?? default`). */
    function GetOr(default: T): T {
      match this
      case Some(v) => v
      case None => default
    }
  }

  datatype Result<+R, +E> = Ok(value: R) | Err(error: E)

  /** JavaScript truthiness of an optional number: `undefined`, `null` and `0` are falsy. */
  predicate Truthy(o: Option<int>) {
    o.Some? && o.value != 0
  }
}
