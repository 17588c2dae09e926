/** Optional values: a missing field, a failed parse, an absent response body. */
module Wrappers {
  datatype Option<+T> = None | Some(value: T)
}
