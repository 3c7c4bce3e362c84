/** Failure-carrying datatypes shared by the model: Python's `None` defaults and
    the exceptions or `sys.exit` calls of the harness become values of these types. */
module Wrappers {

  /** An optional value, standing for a Python argument or dictionary entry that may be `None`. */
  datatype Option<+T> = None | Some(value: T) {

    /** The carried value, or `default` when there is none (Python's `dict.get(key, default)`). */
    function GetOr(default: T): T {
      match this
      case Some(v) => v
      case None => default
    }
  }

  /** A computed value, or the error that the source raises or exits with instead. */
  datatype Result<+T, +E> = Ok(value: T) | Err(error: E)
}
