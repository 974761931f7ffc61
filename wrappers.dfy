/** Optional values: a missing `meta["depth"]`, a missing stats key, an absent next handler. */
module Wrappers {
  datatype Option<+T> = None | Some(value: T)
}
