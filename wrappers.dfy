/** Option and Result, the failure-carrying values used for the store's lookups and the core's errors. */
module Wrappers {

  datatype Option<+T> = None | Some(value: T)

  datatype Result<+R, +E> = Success(value: R) | Failure(error: E)
}
