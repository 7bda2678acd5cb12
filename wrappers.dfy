/** Option stands for a Java reference that may be null, Result for a call that may throw. */
module Wrappers {

  datatype Option<+T> = None | Some(value: T)

  /** `Err(msg)` carries the message of the exception the Java code throws ("" when it has none). */
  datatype Result<+T> = Ok(value: T) | Err(msg: string)
}
