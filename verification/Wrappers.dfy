/** The one failure-free wrapper the models share: a value that may be absent
    (`null`, `undefined` or a rejected lookup in the JavaScript). */
module Wrappers {
  datatype Option<+T> = None | Some(value: T) {
    function GetOr(default: T): T {
      match this
      case None => default
      case Some(v) => v
    }
  }
}
