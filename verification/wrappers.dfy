/** Option and Result, the shapes the licensing code uses for "may be null" and "may throw". */
module Wrappers {

  /** A Java reference that may be null. */
  datatype Option<+T> = None | Some(value: T) {

    /** The value, or `default` when absent. */
    function GetOr(default: T): T {
      match this
      case Some(v) => v
      case None => default
    }
  }

  /** The outcome of a Java call that either returns a value or throws the exception `E`. */
  datatype Result<+T, +E> = Ok(value: T) | Err(error: E) {

    /** Drops the exception, keeping only a returned value. */
    function ToOption(): Option<T> {
      match this
      case Ok(v) => Some(v)
      case Err(_) => None
    }
  }

  /** Java's `Map.get`: the value under `key`, or null when there is none. */
  function MapGet<K, V>(m: map<K, V>, key: K): (r: Option<V>)
    ensures r.Some? <==> key in m
    ensures r.Some? ==> r.value == m[key]
  {
    if key in m then Some(m[key]) else None
  }
}
