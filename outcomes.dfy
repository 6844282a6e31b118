/** Optional values and results, standing in for Python's `None`, a dict key that
    may be absent, and an exception raised by a foreign call. */
module Outcomes {

  /** `None` | `Some(v)`; also "key absent" | "key present with value v". */
  datatype Option<+T> = None | Some(value: T)

  /** The value a foreign call returned, or the exception it raised. */
  datatype Result<+T, +E> = Ok(value: T) | Err(error: E)
}
