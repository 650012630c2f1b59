/** Optional values and results, the shapes used for Python's None and
    JavaScript's null, and for the error paths of the request handlers. */
module Wrappers {

  datatype Option<+T> = None | Some(value: T)

  datatype Result<+T, +E> = Ok(value: T) | Err(error: E)
}
