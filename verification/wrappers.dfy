/** Option and Result, the shapes the model uses for absent keys and for failures. */
module Wrappers {

  /** A value that may be absent: a JSON key that is missing, or a Python `None`. */
  datatype Option<+T> = None | Some(value: T) {

    /** The value, or `default` when absent (Python's `d.get(key, default)`). */
    function GetOr(default: T): T {
      match this
      case Some(v) => v
      case None => default
    }
  }

  /** Either a value or the error that aborted the computation. */
  datatype Result<+R, +E> = Success(value: R) | Failure(error: E)
}

/** Total, defaulting reads of dictionary-shaped data. */
module Defaults {
  import opened Wrappers

  /** `value` is what a defaulting read of `field` yields: the stored value when
      present, `default` otherwise. */
  predicate ReadsAs<T(==)>(field: Option<T>, value: T, default: T) {
    && (field.Some? ==> value == field.value)
    && (field.None? ==> value == default)
  }

  /** Python's `m.get(k, default)` on a dictionary. */
  function Get<K, V>(m: map<K, V>, k: K, default: V): V {
    if k in m then m[k] else default
  }
}
