/** Optional values (Java's nullable references and `Optional`) and results
    that carry either a value or an error (Java's thrown exceptions). */
module Wrappers {

  datatype Option<+T> = None | Some(value: T)

  datatype Result<+T, +E> = Success(value: T) | Failure(error: E)
}
