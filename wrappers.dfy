/** Optional values and success-or-error results, standing in for Kotlin's
    nullable types and for exceptions thrown across layers. */
module Wrappers {

  datatype Option<+T> = None | Some(value: T)

  datatype Result<+T, +E> = Success(value: T) | Failure(error: E)
}
