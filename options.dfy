/** Optional values: stands for JavaScript's `undefined`/`null` wherever the
    components test a value for presence. */
module Options {

  datatype Option<+T> = None | Some(value: T) {

    /** The value, or `default` when absent. */
    function GetOr(default: T): T {
      match this
      case Some(v) => v
      case None => default
    }
  }
}
