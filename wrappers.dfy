/** Optional values (JavaScript `null`/`undefined`) and fallible results (a promise that rejects). */
module Wrappers {

  datatype Option<T> = None | Some(value: T)

  /** The outcome of an operation that can fail with a textual cause. */
  datatype Result<T> = Ok(value: T) | Err(cause: string)
}
