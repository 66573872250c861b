/** Optional values and fallible results, as the Rust code uses `Option` and `Result<_, String>`. */
module Wrappers {

  datatype Option<+T> = None | Some(value: T)

  datatype Result<+T, +E> = Ok(value: T) | Err(error: E)
}
