/** Optional values and success/failure outcomes shared by every module of the model. */
module Wrappers {

  /** A value that may be missing: `null`/`undefined` in the original program. */
  datatype Option<+T> = None | Some(value: T) {

    /** The value, or `default` when there is none (the `??`/`||` fallback). */
    function GetOr(default: T): T {
      match this
      case Some(v) => v
      case None => default
    }
  }

  /** The outcome of an operation that either returns a value or throws an error. */
  datatype Result<+T, +E> = Success(value: T) | Failure(error: E)
}
