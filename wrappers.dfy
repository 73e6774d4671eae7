/** The optional value and the success-or-error value shared by every module. */
module Wrappers {
  datatype Option<T> = None | Some(value: T)
  datatype Result<T> = Ok(value: T) | Err(message: string)
}
