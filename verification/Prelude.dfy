/** Option and Result, the two wrappers every component returns. */
module Prelude {

  datatype Option<+T> = None | Some(value: T)

  /** `Err` stands for a thrown, typed error of the original. */
  datatype Result<+T, +E> = Ok(value: T) | Err(error: E)
}
