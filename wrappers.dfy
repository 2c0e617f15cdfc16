/** Optional values, used where the scripts return `None` or read a value that may be absent. */
module Wrappers {

  datatype Option<+T> = None | Some(value: T)

  /** A value or the message of the exception the script raises instead. */
  datatype Result<+T> = Ok(value: T) | Err(message: string)
}
