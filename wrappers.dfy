/** Optional values and success/error results, standing in for the source's
    `T | null`, `T | undefined` and `{ success, user?, error? }` returns. */
module Wrappers {

  datatype Option<+T> = None | Some(value: T)

  datatype Result<+T, +E> = Ok(value: T) | Err(error: E)
}
