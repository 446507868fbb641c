/** Option and Result, the shapes in which the parsers report success or the reason they gave up. */
module Results {

  datatype Option<+T> = None | Some(value: T)

  datatype Result<+T, +E> = Ok(value: T) | Err(error: E)
}
