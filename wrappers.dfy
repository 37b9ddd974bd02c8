/** Optional values, the model's rendering of Swift optionals, Kotlin
    nullable types and TypeScript `undefined`/`null`. */
module Wrappers {

  datatype Option<T> = None | Some(value: T)
  {
    /** The wrapped value, or `default` when there is none (`?? default`). */
    function UnwrapOr(default: T): T
    {
      match this
      case None => default
      case Some(v) => v
    }
  }

  /** The outcome of an operation that can fail: a thrown error, a Swift
      `Result`, a trap. */
  datatype Result<T, E> = Success(value: T) | Failure(error: E)
}
