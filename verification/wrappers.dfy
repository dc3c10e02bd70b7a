/** Optional values and the Python exceptions the scripts can raise. */
module Wrappers {

  /** A value that may be absent (a NaN year bound, an empty column). */
  datatype Option<+T> = None | Some(value: T)

  /** The exceptions the modelled code raises instead of returning. */
  datatype Failure =
    | ValueError(message: string)
    | KeyError(key: string)
    | IndexError
    | ZeroDivisionError
    | UnboundLocalError(name: string)
    | TypeError(column: string)

  /** Either the value a function computes or the exception it raises. */
  datatype Result<+T> = Ok(value: T) | Err(error: Failure)
}
