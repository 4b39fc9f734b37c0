/** Optional values (a C# reference that may be null) and results (a value or the exception thrown). */
module Wrappers {

  datatype Option<+T> = None | Some(value: T)

  datatype Result<+T, +E> = Ok(value: T) | Err(error: E)
}
