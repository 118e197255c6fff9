/** The "value or nothing" wrapper used for JavaScript's `undefined`/`null`
    and Python's `None`. */
module Optional {
  datatype Option<+T> = None | Some(value: T) {
    function GetOr(default: T): T {
      match this
      case Some(v) => v
      case None => default
    }
  }
}
