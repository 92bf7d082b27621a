/** Failure-compatible wrappers shared by every module of the model. */
module Wrappers {

  /** A value that may be absent: SQL NULL, JavaScript `null` or `undefined`. */
  datatype Option<+T> = None | Some(value: T) {

    /** `x ?? default` */
    function GetOr(default: T): T {
      if Some? then value else default
    }
  }

  /** The result of a call that may reject or throw. */
  datatype Result<+T, +E> = Ok(value: T) | Err(error: E)

  /** The result of a call that returns nothing but may reject or throw. */
  datatype Outcome<+E> = Pass | Fail(error: E)
}
