/** A value that may be absent: the model's stand-in for a NULL pointer or a missing result. */
module Options {
  datatype Option<+T> = None | Some(value: T) {
    function GetOr(default: T): T {
      if Some? then value else default
    }
  }
}
