/** Option and Result: the absent value and the raised exception of the source, as data. */
module Wrappers {

  datatype Option<+T> = None | Some(value: T) {
    /** The value, or `default` when there is none (Python's `dict.get(key, default)`). */
    function GetOr(default: T): T {
      match this
      case Some(v) => v
      case None => default
    }
  }

  /** `Failure(message)` stands for an exception whose `str(e)` is `message`. */
  datatype Result<+R, +E> = Success(value: R) | Failure(error: E)
}
