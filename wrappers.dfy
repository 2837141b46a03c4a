/** Optional values: JavaScript's `undefined` and Go's "not found" both become None. */
module Wrappers {
  datatype Option<+T> = None | Some(value: T)
}
