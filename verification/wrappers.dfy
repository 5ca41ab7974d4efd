/** Optional values: the model's stand-in for Python attributes that may be
    absent (`hasattr` / `getattr` with a default) and for a rasterizer that may
    return `None`. */
module Wrappers {

  datatype Option<+T> = None | Some(value: T) {

    /** The wrapped value, or `default` when there is none (Python's
        `getattr(obj, attr, default)`). */
    function GetOr(default: T): T {
      match this
      case Some(v) => v
      case None => default
    }
  }
}
