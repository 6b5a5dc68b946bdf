/** Optional values and stage outcomes shared by the other modules. */
module Results {

  /** A dictionary lookup that may find nothing. */
  datatype Option<+T> = None | Some(value: T) {

    /** The value, or `default` when it is missing (Python's `d.get(key, default)`). */
    function GetOr(default: T): T {
      match this
      case Some(v) => v
      case None => default
    }
  }

  /** The outcome of a call that may raise: `Err` carries the exception's message. */
  datatype Outcome<+T> = Ok(value: T) | Err(cause: string)
}
