/** Outcome types shared by the modules: an absent value, and a refusal in place of a raised exception. */
module Prelude {

  datatype Option<+T> = None | Some(value: T)

  datatype Result<+T, +E> = Ok(value: T) | Err(error: E)
}
