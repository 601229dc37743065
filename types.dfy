/** Optional values and error-or-value results shared by every module. */
module Types {

  datatype Option<T> = None | Some(value: T) {
    /** Python's `d.get(key, default)` once the lookup has produced an Option. */
    function GetOr(default: T): T {
      if Some? then value else default
    }
  }

  /** A value, or the error (an exception or an exit) that replaced it. */
  datatype Result<T, E> = Ok(value: T) | Err(error: E)
}
