/** Optional values and success-or-failure results, used wherever the Go code
    returns `nil`, a second `error` value, or panics. */
module Wrappers {

  datatype Option<+T> = None | Some(value: T)

  datatype Result<+R, +E> = Success(value: R) | Failure(error: E)
}
