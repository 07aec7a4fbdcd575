/** Optional values and results: `undefined`/`null` and thrown errors of the application. */
module Wrappers {

  datatype Option<+T> = None | Some(value: T)

  datatype Result<+R, +E> = Success(value: R) | Failure(error: E)
}
