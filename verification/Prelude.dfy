/** Option and Result, used where the source returns nil, a zero value or an error. */
module Prelude {
  datatype Option<+T> = None | Some(value: T)

  datatype Result<+T> = Ok(value: T) | Err
}
