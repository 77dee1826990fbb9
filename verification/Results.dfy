/** The two result shapes the model uses for Go's `(value, error)` pairs and nilable values. */
module Results {

  datatype Option<+T> = None | Some(value: T)

  datatype Result<+T, +E> = Ok(value: T) | Err(error: E)
}
