/** Option and Result values standing in for Python's `None` and raised exceptions. */
module Results {

  datatype Option<+T> = None | Some(value: T)

  /** `Ok(v)` is a normal return; `Err(e)` is an exception raised with `e`. */
  datatype Result<+T, +E> = Ok(value: T) | Err(error: E)
}
