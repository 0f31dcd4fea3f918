/** Optional values and results with an error message: JavaScript's
    `undefined`/`null` and thrown `Error`s. */
module Wrappers {

  datatype Option<+T> = None | Some(value: T)

  /** `Err` carries the message of the `Error` the source throws. */
  datatype Result<+T> = Ok(value: T) | Err(message: string)
}
