/** Optional values and results with an error, for the source's optional fields
    (`image?`, `summary?`, `suggestedActions?`) and its rejected promises. */
module Wrappers {
  datatype Option<+T> = None | Some(value: T)

  datatype Result<+R, +E> = Ok(value: R) | Err(error: E)
}
