/** Option and Result values standing for Python's `None` and for the
    exceptions the viewer raises and (sometimes) catches. */
module Outcomes {

  /** A value that may be missing (a JSON `null`, an absent key, a NaN cell). */
  datatype Option<+T> = None | Some(value: T) {
    function GetOr(default: T): T {
      match this
      case Some(v) => v
      case None => default
    }
  }

  /** The outcome of a Python call that either returns a value or raises an
      exception whose `str(e)` is `message`. */
  datatype Result<+T> = Ok(value: T) | Err(message: string)

  /** A key of a JSON object: absent, present with `null`, or present with a value. */
  datatype Field<+T> = Absent | Null | Present(value: T)
}
