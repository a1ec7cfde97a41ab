/** Option and Result shared by the pool model. */
module Wrappers {

  /** A value that may be absent (an unset optional attribute). */
  datatype Option<+T> = None | Some(value: T) {
    /** The value, or `default` when absent (what `d.Get` yields for an unset attribute). */
    function GetOr(default: T): T {
      if Some? then value else default
    }
  }

  /** The outcome of a step that may fail with an error of type E. */
  datatype Result<+T, +E> = Ok(value: T) | Err(error: E)
}
