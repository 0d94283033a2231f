/** Optional values (JavaScript's `undefined`) and results that may carry a thrown error. */
module Wrappers {

  /** `None` stands for JavaScript's `undefined` (or `null` where a parameter allows it). */
  datatype Option<+T> = None | Some(value: T) {
    function GetOr(default: T): T {
      match this
      case Some(v) => v
      case None => default
    }
  }

  /** `Failure` stands for an exception thrown by the modelled code. */
  datatype Result<+R, +E> = Success(value: R) | Failure(error: E) {
    predicate IsFailure() {
      Failure?
    }

    function PropagateFailure<U>(): Result<U, E>
      requires Failure?
    {
      Failure(error)
    }

    function Extract(): R
      requires Success?
    {
      value
    }
  }

  /** The JavaScript error classes the scripts throw, with their messages. */
  datatype Exception =
    | TypeError(message: string)
    | Error(message: string)
    | RangeError(message: string)
}
