/** Optional values, used for "nil or a value" results and for error returns. */
module Wrappers {
  datatype Option<+T> = None | Some(value: T)
}
