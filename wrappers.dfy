/** Optional values and results, in place of JavaScript's `undefined`/`null` and thrown errors. */
module Wrappers {

  datatype Option<T> = None | Some(value: T) {

    /** The value, or `default` when there is none (JavaScript's `x || default` on a nullable). */
    function GetOr(default: T): T
    {
      match this
      case Some(v) => v
      case None => default
    }
  }

  /** The outcome of an operation that either produces a value or fails with an error. */
  datatype Result<T, E> = Success(value: T) | Failure(error: E)
}
