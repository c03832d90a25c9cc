/** Types shared by the components. */
module Wrappers {
  type byte = x: int | 0 <= x < 256

  datatype Option<T> = None | Some(value: T)

  datatype Result<T> = Ok(value: T) | Err
}
