/** Optional values and explicit outcomes, used where the source returns
    `undefined`/`null` or reports a failure to the user instead of a value. */
module Wrappers {

  datatype Option<+T> = None | Some(value: T)

  datatype Result<+R, +E> = Success(value: R) | Failure(error: E)
}
