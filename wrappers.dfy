/** Optional values and fallible results, used for JavaScript's `null` and for
    operations whose failure aborts the run. */
module Wrappers {

  datatype Option<+T> = None | Some(value: T)

  datatype Result<+R, +E> = Success(value: R) | Failure(error: E)
}
