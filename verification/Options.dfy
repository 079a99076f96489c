/** The two result shapes the rest of the project uses for SQL NULL and for returned errors. */
module Options {

  datatype Option<+T> = None | Some(value: T)

  datatype Result<+T, +E> = Ok(value: T) | Err(error: E)
}
