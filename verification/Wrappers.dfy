/** Option and Result values shared by every module. A JavaScript `assert` that
    throws becomes `Err`; a value that may be undefined becomes an `Option`. */
module Wrappers {

  datatype Option<+T> = None | Some(value: T)

  datatype Result<+T, +E> = Ok(value: T) | Err(error: E)
}
