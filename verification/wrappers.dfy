/** Optional values and success-or-error results, used where the source
    works with `undefined` or reports a problem through an alert. */
module Wrappers {

  datatype Option<+T> = None | Some(value: T)

  datatype Result<+T, +E> = Ok(value: T) | Err(error: E)
}
