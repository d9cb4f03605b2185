/** Option and Result: the model's form of Rust's `Option<T>` and `Result<T, Error>`. */
module Wrappers {

  datatype Option<+T> = None | Some(value: T)

  /** `Err` carries the error message the source builds with `format!`/`err_msg`. */
  datatype Result<+T> = Ok(value: T) | Err(error: string)
}
