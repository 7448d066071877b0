/** Optional values (TypeScript's `T | null` and optional fields) and tagged results. */
module Wrappers {

  datatype Option<+T> = None | Some(value: T)

  datatype Result<+R, +E> = Ok(value: R) | Err(error: E)
}
