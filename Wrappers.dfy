/** Optional values and outcomes that either carry a value or an error. */
module Wrappers {

  /** A value that may be absent: `undefined`/`null` on the JavaScript side. */
  datatype Option<+T> = None | Some(value: T)

  /** The outcome of an operation that may throw: `Ok` for a returned value,
      `Err` for a thrown error, carrying its message. */
  datatype Result<+T, +E> = Ok(value: T) | Err(error: E)
}
