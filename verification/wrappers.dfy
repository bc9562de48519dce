/** Optional values and success/failure results, used wherever the TypeScript
    code has `undefined`/`null` fields or throws. */
module Wrappers {

  /** A possibly absent value (`undefined` or `null` in the TypeScript code). */
  datatype Option<+T> = None | Some(value: T) {

    /** The value when present, otherwise `default` (the `??` operator). */
    function GetOr(default: T): T {
      match this
      case Some(v) => v
      case None => default
    }
  }

  /** The outcome of an operation that may throw. */
  datatype Result<+T, +E> = Success(value: T) | Failure(error: E)

  /** What a `catch` clause receives: an `Error` object with a message, or
      some other thrown value. */
  datatype Thrown = ErrorObject(message: string) | NonErrorValue
}
