/** Optional values: `None` stands for JavaScript's `undefined` (or a field a
    protobuf message leaves unset). */
module Wrappers {

  datatype Option<+T> = None | Some(value: T) {

    /** The value, or `default` when there is none. */
    function GetOr(default: T): T {
      match this
      case Some(v) => v
      case None => default
    }
  }
}
