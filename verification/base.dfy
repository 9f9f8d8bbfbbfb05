/** Option and Result: the absent value (`null`/`undefined`) and the
    success-or-error outcome used throughout the model. */
module Base {

  datatype Option<+T> = None | Some(value: T)

  datatype Result<+T, +E> = Ok(value: T) | Err(error: E)
}
