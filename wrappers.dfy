/** Optional values: a JavaScript member that may be absent, null or undefined. */
module Wrappers {
  datatype Option<+T> = None | Some(value: T)
}
