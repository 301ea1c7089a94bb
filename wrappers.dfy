/** Option stands for a value that may be absent: a missing dictionary key, a
    missing answer, or a numeric NaN produced by an empty mean or a division by zero. */
module Wrappers {

  datatype Option<+T> = None | Some(value: T) {

    /** The value, or `default` when absent (Python's `dict.get(k, default)`, JS `??`). */
    function GetOr(default: T): T {
      match this
      case Some(v) => v
      case None => default
    }
  }
}
