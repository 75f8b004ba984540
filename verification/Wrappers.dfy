/** The option and result types shared by the other modules. */
module Wrappers {

  datatype Option<+T> = None | Some(value: T)

  /** `Err` stands for a raised exception; its payload says which one. */
  datatype Result<+T, +E> = Ok(value: T) | Err(error: E)
}
