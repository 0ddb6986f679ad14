/** Optional values and results shared by every module of the model. */
module Wrappers {

  /** A value that may be absent: JavaScript's `null` / `undefined` in typed positions. */
  datatype Option<+T> = None | Some(value: T) {

    /** The value, or `fallback` when absent: the `??` operator on typed values. */
    function OrElse(fallback: T): T {
      match this
      case Some(v) => v
      case None => fallback
    }
  }

  /** The outcome of an operation that may fail with an error value. */
  datatype Result<+T, +E> = Success(value: T) | Failure(error: E)
}
