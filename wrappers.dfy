/** Optional values: `None` stands for JavaScript's null, undefined or NaN
    wherever the modelled code tests a value for presence. */
module Wrappers {

  datatype Option<+T> = None | Some(value: T) {

    /** The value, or `default` when absent (JavaScript's `x || default`
        for a value whose only falsy form is absence). */
    function GetOr(default: T): T {
      match this
      case Some(v) => v
      case None => default
    }
  }
}
