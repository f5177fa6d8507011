/** A value that may be absent: JavaScript's `null` or `undefined`. */
module Optional {
  datatype Option<+T> = None | Some(value: T) {
    /** `x ?? default`: the value if present, else the default. */
    function GetOr(default: T): T {
      match this
      case Some(v) => v
      case None => default
    }
  }
}
