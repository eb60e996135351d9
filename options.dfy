/** The optional value used wherever the source reads a field that may be absent
    (`undefined`/`null` in JavaScript, `NULL` in SQL). */
module Options {

  datatype Option<+T> = None | Some(value: T) {

    /** The wrapped value, or `default` when absent (JavaScript's `x || default` on a
        value that is either absent or an array). */
    function GetOr(default: T): T {
      match this
      case Some(v) => v
      case None => default
    }
  }
}
