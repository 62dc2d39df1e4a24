/** Optional values and failure-carrying results, used where the source has
    `undefined`/`null` or throws. */
module Wrappers {

  datatype Option<+T> = None | Some(value: T)

  datatype Result<+R, +E> = Ok(value: R) | Err(error: E)
}
