/** Optional values and results with an error, used for the dictionary lookups of the animation
    (a missing key is Python's KeyError). */
module Wrappers {

  datatype Option<+T> = None | Some(value: T)

  datatype Result<+T, +E> = Ok(value: T) | Err(error: E)
}
