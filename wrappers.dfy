/** Optional values, standing for Python's None. */
module Wrappers {

  datatype Option<+T> = None | Some(value: T) {

    /** The wrapped value, or `default` for None (Python's `d.get(k, default)`). */
    function GetOr(default: T): T {
      match this
      case Some(v) => v
      case None => default
    }
  }

  /** Python truthiness of an optional row id: None and 0 are both false. */
  predicate Present(id: Option<nat>) {
    id.Some? && id.value != 0
  }
}
