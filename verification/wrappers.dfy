/** Optional values and results, standing for Java's null returns and the
    error paths of the modelled code. */
module Wrappers {

  /** A value that may be absent (a Java null). */
  datatype Option<T> = None | Some(value: T)

  /** A value, or the reason it could not be produced. */
  datatype Result<T, E> = Ok(value: T) | Err(error: E)
}
