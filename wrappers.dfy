/** Optional values and thrown-or-returned results, shared by every module. */
module Wrappers {

  /** A value that may be absent: JavaScript's `undefined` (or `null`) versus a present value. */
  datatype Option<+T> = None | Some(value: T) {
    /** The value, or the default when absent (the `x = default` of a destructuring pattern). */
    function GetOr(default: T): T {
      if Some? then value else default
    }
  }

  /** The outcome of an async function: it returns a value or throws an Error with a message. */
  datatype Result<+T> = Ok(value: T) | Err(message: string)
}
