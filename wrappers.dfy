/** Optional values: a missing attribute, an absent match, an absent parent. */
module Wrappers {
  datatype Option<+T> = None | Some(value: T)
}
