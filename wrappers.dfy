/** A value that may be missing: JavaScript's `undefined`, `NaN` or "no such entry". */
module Wrappers {

  datatype Option<+T> = None | Some(value: T)
}
