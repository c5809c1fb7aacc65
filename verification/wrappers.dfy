/** Option and Result values shared by every module of the model. */
module Wrappers {

  /** A value that may be absent (Python's None). */
  datatype Option<+T> = None | Some(value: T)

  /** The outcome of an operation that may raise: Err carries the exception's kind name. */
  datatype Result<+T> = Ok(value: T) | Err(error: string)
}
