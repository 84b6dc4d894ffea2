/** Values for the two ways a Python call ends: it returns, or it raises. */
module Outcomes {

  datatype Option<+T> = None | Some(value: T)

  /** A raised exception, as `str(e)` shows it. */
  datatype Exception = Exception(text: string)

  /** The outcome of a call that may raise. */
  datatype Result<+T> = Ok(value: T) | Err(error: Exception)
}
