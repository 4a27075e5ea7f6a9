/** Optional values and results with an error, for the store's nullable
    returns and the constructor's exception. */
module Wrappers {

  datatype Option<+T> = None | Some(value: T)

  datatype Result<+T, +E> = Success(value: T) | Failure(error: E)
}
