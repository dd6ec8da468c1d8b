/** Option and Result values: the source's `undefined` and its thrown errors. */
module Wrappers {

  /** A value that may be absent (a JavaScript member that is `undefined`). */
  datatype Option<+T> = None | Some(value: T)

  /** Either a value or the error the source would throw instead of returning. */
  datatype Result<+T, +E> = Ok(value: T) | Err(error: E)
}
