/** Optional values and results with an error, used for the source's
    `undefined`/`null` values and for the exceptions it throws. */
module Wrappers {

  datatype Option<+T> = None | Some(value: T)

  datatype Result<+R, +E> = Success(value: R) | Failure(error: E)
}
