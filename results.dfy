/** Option and Result: the shapes used for the source's optional values
    (`None`, missing keys) and for the exceptions it raises. */
module Results {

  datatype Option<+T> = None | Some(value: T)

  datatype Result<+T, +E> = Ok(value: T) | Err(error: E)
}
