/** Option and Result: absent values and the exceptions of the modelled code. */
module Wrappers {

  /** A value that may be absent (`undefined`, `null` or `None` in the source). */
  datatype Option<+T> = None | Some(value: T)

  /** The outcome of an operation that may throw or raise. */
  datatype Result<+T, +E> = Ok(value: T) | Err(error: E)
}
