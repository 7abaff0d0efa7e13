/** Failure-compatible wrappers shared by the other modules: a missing value, and a
    value or the error (the Python exception) that replaced it. */
module Wrappers {

  datatype Option<T> = None | Some(value: T)

  datatype Result<T, E> = Ok(value: T) | Err(error: E)
}
