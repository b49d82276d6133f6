/** Optional values: JavaScript's `undefined` for a field that may be missing. */
module Wrappers {

  datatype Option<+T> = None | Some(value: T)
}
