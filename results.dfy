/** Option and Result values shared by the modules of this model: a Python call
    that returns None or raises becomes None or Err. */
module Results {

  datatype Option<+T> = None | Some(value: T)

  datatype Result<+T, +E> = Ok(value: T) | Err(error: E)
}
