/** Optional values: JavaScript's `undefined` where the source may produce one. */
module Wrappers {
  datatype Option<+T> = None | Some(value: T)
}
