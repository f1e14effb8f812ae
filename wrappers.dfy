/** Option and Result, used for JavaScript's `undefined` and for the
    places where the script throws. */
module Wrappers {

  datatype Option<T> = None | Some(value: T)

  datatype Result<T, E> = Ok(value: T) | Err(error: E)
}
