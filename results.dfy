/** Outcome types shared by the model: a value or nothing, a value or an error. */
module Results {

  datatype Option<T> = None | Some(value: T)

  datatype Result<T, E> = Ok(value: T) | Err(error: E)
}
