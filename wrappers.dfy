/** Optional values: a Go pointer that may be nil, or a field that may be absent. */
module Wrappers {
  datatype Option<+T> = None | Some(value: T)
}
