/** Option and Result values for the model's absent fields and error returns. */
module Wrappers {

  /** A value that may be absent (a missing JSON key, an unset form field). */
  datatype Option<+T> = None | Some(value: T) {

    /** The value, or `default` when absent (Python's `dict.get(key, default)`). */
    function GetOr(default: T): (r: T)
      ensures Some? ==> r == value
      ensures None? ==> r == default
    {
      match this
      case Some(v) => v
      case None => default
    }
  }

  /** Either a computed value or the error the source raises instead. */
  datatype Result<+R, +E> = Ok(value: R) | Err(error: E)
}
