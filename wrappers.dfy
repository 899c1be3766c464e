/** Optional values (Python's `None`) and results of operations that may
    raise (Python's exceptions), as plain datatypes. */
module Wrappers {

  datatype Option<+T> = None | Some(value: T)

  datatype Result<+T, +E> = Ok(value: T) | Err(error: E)
}
