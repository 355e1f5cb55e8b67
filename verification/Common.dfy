/** Option and Result types standing for the source's `Option`/`nil` and `Result`/`NSError`. */
module Common {
  datatype Option<+T> = None | Some(value: T)

  datatype Result<+T> = Ok(value: T) | Err(message: string)
}
