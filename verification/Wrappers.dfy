/**
 Option and Result, used where the TypeScript returns `undefined` or throws a coded error, and its
 numbers before they are checked.
 */
module Wrappers {

  datatype Option<+T> = None | Some(value: T)

  datatype Result<+T, +E> = Ok(value: T) | Err(error: E)

  datatype Number = NotFinite | Finite(value: real)
}
