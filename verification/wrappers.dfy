/** Optional values: JavaScript's `null` / `undefined` / `NaN` where the source tests for them. */
module Wrappers {
  datatype Option<T> = None | Some(value: T)
  {
    /** `x ?? d` */
    function UnwrapOr(d: T): T {
      match this
      case None => d
      case Some(v) => v
    }
  }
}
