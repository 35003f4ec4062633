/** Optional values and success-or-failure results, used for the source's
    `undefined`/`null` values and for errors that a handler catches. */
module Wrappers {

  datatype Option<+T> = None | Some(value: T)

  datatype Result<+R, +E> = Success(value: R) | Failure(error: E)
}
