/** The two result shapes the modelled code returns: Rust's `Option` and `Result`. */
module Results {

  datatype Option<+T> = None | Some(value: T)

  datatype Result<+T, +E> = Ok(value: T) | Err(error: E)
}
