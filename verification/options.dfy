/** The optional value used wherever the source returns `undefined` or `null`. */
module Options {

  datatype Option<+T> = None | Some(value: T) {

    /** The value if present, otherwise `default` (the source's `??` operator). */
    function GetOr(default: T): T {
      match this
      case Some(v) => v
      case None => default
    }
  }
}
