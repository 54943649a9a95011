/** Optional values and results with an error, used for Python's `None` and for
    the exceptions that the ingestion code catches. */
module Wrappers {

  datatype Option<+T> = None | Some(value: T)

  datatype Result<+T, +E> = Ok(value: T) | Err(error: E)
}
