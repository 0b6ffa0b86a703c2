/** Values that may be absent: JavaScript's `undefined`/`null` results
    (a map lookup that misses, a `find` that matches nothing, a
    `parseFloat` that yields NaN). */
module Common {

  datatype Option<+T> = None | Some(value: T) {

    /** The value, or `default` when absent (JavaScript's `??`). */
    function GetOr(default: T): T {
      match this
      case Some(v) => v
      case None => default
    }
  }
}
