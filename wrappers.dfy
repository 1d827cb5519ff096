/** Optional values and success/failure results, used for PHP's nullable
    returns and for API calls that end with an error. */
module Wrappers {

  datatype Option<+T> = None | Some(value: T)

  datatype Result<+R, +E> = Success(value: R) | Failure(error: E)
}
