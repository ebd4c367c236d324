/** The usual optional value, used wherever the C code returns -1 and leaves its out parameter alone. */
module Options {
  datatype Option<+T> = None | Some(value: T) {
    function GetOr(default: T): T {
      if Some? then value else default
    }
  }
}
