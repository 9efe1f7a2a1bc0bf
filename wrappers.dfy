/** Optional values: JavaScript's `undefined` result of a lookup that finds nothing. */
module Wrappers {

  datatype Option<+T> = None | Some(value: T)
}
