/** The absent-or-present values that the pipeline's rows and payloads are built from. */
module Options {

  datatype Option<+T> = None | Some(value: T) {

    /** The stored value, or `default` when nothing is stored: Python's `x or default`. */
    function GetOr(default: T): T {
      if Some? then value else default
    }
  }
}
