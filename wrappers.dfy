/** Optional values: JavaScript's `null` / `undefined` for a missing value. */
module Wrappers {

  datatype Option<+T> = None | Some(value: T)
}
