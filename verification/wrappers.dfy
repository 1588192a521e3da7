/** Failure-compatible wrappers used throughout the model: an optional value
    (Python's `None` or a value) and a success-or-error outcome (a command that
    either produces its output or stops with an error message). */
module Wrappers {

  datatype Option<+T> = None | Some(value: T) {

    /** The value, or `default` when there is none (Python's `d.get(k, default)`). */
    function GetOr(default: T): T {
      match this
      case Some(v) => v
      case None => default
    }
  }

  datatype Result<+R, +E> = Success(value: R) | Failure(error: E)

  /** `d.get(k, default)` on a dictionary. */
  function Lookup<K, V>(m: map<K, V>, k: K, default: V): V {
    if k in m then m[k] else default
  }
}
