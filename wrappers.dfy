/** Optional values and outcomes of foreign calls. */
module Wrappers {

  /** Python's `None` or a present value. */
  datatype Option<+T> = None | Some(value: T)

  /** The outcome of a call that may raise: the value, or the exception's text. */
  datatype Result<+T> = Ok(value: T) | Raised(message: string)
}
