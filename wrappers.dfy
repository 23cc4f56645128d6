/** Optional values: `undefined`/`null` on the TypeScript side. */
module Wrappers {

  datatype Option<+T> = None | Some(value: T) {

    /** The value, or `default` when absent (TypeScript's `??`). */
    function GetOr(default: T): T {
      match this
      case Some(v) => v
      case None => default
    }
  }

  /** The outcome of a call into a service the model does not see: a value or a thrown error. */
  datatype Outcome<+T> = Success(value: T) | Failure(message: string)
}
