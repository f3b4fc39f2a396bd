/** Small value wrappers shared by every module of the model. */
module Wrappers {

  /** A value that may be absent: an optional object field, a missing map entry. */
  datatype Option<+T> = None | Some(value: T) {
    function GetOr(default: T): T {
      match this
      case Some(v) => v
      case None => default
    }

    /** `this ?? other`: this value when present, otherwise `other`. */
    function Or(other: Option<T>): Option<T> {
      if Some? then this else other
    }
  }

  /** `m[key]` of a record or dictionary: None (`undefined`) when the key is missing. */
  function Get<K, V>(m: map<K, V>, key: K): (r: Option<V>)
    ensures r.Some? <==> key in m
    ensures r.Some? ==> r.value == m[key]
  {
    if key in m then Some(m[key]) else None
  }

  /** A present value that may still be `null` (TypeScript `T | null`). */
  datatype Nullable<+T> = Null | Value(value: T)

  /** The outcome of an async call that resolves with a value or rejects with an error. */
  datatype Result<+T, +E> = Ok(value: T) | Err(error: E)
}
