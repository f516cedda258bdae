/** Small failure-carrying datatypes shared by the certificate-page modules. */
module Wrappers {

  /** A value that may be absent (a JavaScript `null` or `undefined`). */
  datatype Option<+T> = None | Some(value: T)

  /** The answer of an external service: a value, or a rejected promise / thrown error. */
  datatype Outcome<+T> = Ok(value: T) | Fail
}
