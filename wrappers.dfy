/** Optional values and fallible results, as returned by the renderer's lookups and grid writes. */
module Wrappers {

  /** `Option<T>`: a value that may be absent (a map lookup, a bounds-checked read). */
  datatype Option<+T> = None | Some(value: T)

  /** `Result<T, E>`: either a value or the reason there is none. */
  datatype Result<+T, +E> = Ok(value: T) | Err(error: E)
}
