/** Optional values and error-carrying results shared by the frontend and backend models. */
module Wrappers {

  /** A value that may be absent; the models use it for JavaScript `null` slots and Python `None`. */
  datatype Option<+T> = None | Some(value: T)

  /** Either a computed value or the error the source raises instead. */
  datatype Result<+T, +E> = Ok(value: T) | Err(error: E)
}
