/** Small failure-compatible datatypes shared by the other modules. */
module Wrappers {

  /** A value that may be missing: the `dict.get` / `int()`-may-fail shape. */
  datatype Option<+T> = None | Some(value: T) {

    /** The carried value, or `default` when there is none. */
    function GetOr(default: T): T {
      match this
      case Some(v) => v
      case None => default
    }
  }
}
