/** Option and Result: the model's stand-ins for Python's None and raised exceptions. */
module Wrappers {

  datatype Option<T> = None | Some(value: T)

  datatype Result<T, E> = Ok(value: T) | Err(error: E)
}
