/** Small failure-carrying datatypes shared by every module of the model. */
module Wrappers {

  /** A value that may be absent (JavaScript `null` / `undefined`). */
  datatype Option<T> = None | Some(value: T)

  /** The outcome of an operation that may fail with an error of type `E`. */
  datatype Result<T, E> = Ok(value: T) | Err(error: E)

  function Min(a: int, b: int): int
  {
    if a <= b then a else b
  }
}
