/** Small value wrappers shared by the modules of this model. */
module Results {

  /** A value that may be absent (Python's `None` or a missing dictionary key). */
  datatype Option<+T> = None | Some(value: T) {
    /** The value, or `default` when absent (Python's `dict.get(key, default)`). */
    function GetOr(default: T): T {
      match this
      case Some(v) => v
      case None => default
    }
  }

  /** The outcome of a call that may raise: `Err` carries the text `str(e)` of the exception. */
  datatype Outcome<+T> = Ok(value: T) | Err(msg: string)
}
