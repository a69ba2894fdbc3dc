/** Optional values: `None` stands for the source's "unset" sentinels
    (`DateTime.MinValue`) and for "parse failed". */
module Wrappers {

  datatype Option<+T> = None | Some(value: T) {

    /** The value when present, otherwise `default`. */
    function GetOr(default: T): T {
      match this
      case Some(v) => v
      case None => default
    }
  }
}
