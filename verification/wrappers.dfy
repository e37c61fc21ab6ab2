/** Optional values and results with an error, the shapes Kotlin expresses with
    nullable types and `require` failures. */
module Wrappers {

  /** A nullable value: `None` plays the part of Kotlin's `null`. */
  datatype Option<+T> = None | Some(value: T)

  /** The outcome of a validating constructor: the built value, or the first
      requirement it violated. */
  datatype Result<+T, +E> = Success(value: T) | Failure(error: E)
}
