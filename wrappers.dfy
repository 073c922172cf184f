/** Optional values and results with an error, used for parse outcomes,
    repository lookups and aborted handler runs. */
module Wrappers {

  datatype Option<+T> = None | Some(value: T)

  datatype Result<+R, +E> = Success(value: R) | Failure(error: E)
}
