/** Option and Result: the two failure-carrying shapes the Rust code uses
    (`Option<T>` and `Result<T, E>` with a message-like error). */
module Wrappers {

  datatype Option<+T> = None | Some(value: T) {
    /** `unwrap_or`: the carried value, or the default when absent. */
    function GetOr(default: T): T {
      match this
      case Some(v) => v
      case None => default
    }
  }

  /** Errors are carried as text; the model never inspects them beyond Ok/Err. */
  datatype Result<+T> = Ok(value: T) | Err(error: string)
}
