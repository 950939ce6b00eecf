/** Optional values and success/failure results, standing in for the
    `undefined`/`null` values and thrown errors of the modelled TypeScript. */
module Wrappers {

  /** A value that may be absent (`undefined` or `null` in the source). */
  datatype Option<+T> = None | Some(value: T) {

    /** The wrapped value, or `default` when absent. */
    function GetOr(default: T): T {
      match this
      case Some(v) => v
      case None => default
    }
  }

  /** The outcome of an operation that may throw: `Ok` carries the returned
      value, `Err` the message of the thrown error. */
  datatype Result<+T> = Ok(value: T) | Err(message: string)
}
