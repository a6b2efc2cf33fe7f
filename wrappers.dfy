/** Optional values and results with an error, used wherever the script may
    meet an absent value or stop with an error. */
module Wrappers {

  datatype Option<+T> = None | Some(value: T)

  datatype Result<+R, +E> = Success(value: R) | Failure(error: E)
}
