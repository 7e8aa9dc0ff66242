/** Optional values and results with an error, shared by the palette and listbox models. */
module Wrappers {

  /** A value that may be absent: JavaScript's `undefined` for an optional argument or field. */
  datatype Option<+T> = None | Some(value: T)

  /** The outcome of an operation that may be refused. */
  datatype Result<+R, +E> = Ok(value: R) | Err(error: E)
}
