/** Optional values and success/failure results, used for nullable columns,
    `.first()` lookups and HTTP error returns. */
module Wrappers {

  datatype Option<+T> = None | Some(value: T)

  datatype Result<+R, +E> = Success(value: R) | Failure(error: E)
}
