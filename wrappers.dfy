/** Optional values and success-or-error results, the model's stand-ins for
    Python's `None` and for raised exceptions. */
module Wrappers {

  datatype Option<+T> = None | Some(value: T) {
    /** The wrapped value, or `default` when there is none (Python's `dict.get(key, default)`). */
    function GetOr(default: T): T {
      if Some? then value else default
    }
  }

  /** `Failure(e)` stands for the exception a Python function raises. */
  datatype Result<+T, +E> = Success(value: T) | Failure(error: E)
}
