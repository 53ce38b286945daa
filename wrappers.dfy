/** Optional values (Java's nullable references) and results with an error case
    (Java's exceptions on the paths the model keeps). */
module Wrappers {

  datatype Option<+T> = None | Some(value: T)

  datatype Result<+T, +E> = Ok(value: T) | Err(error: E)
}
