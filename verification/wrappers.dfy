/** Optional values: an absent JavaScript property, a `null` reply from the
    store, or a remote call that failed. */
module Wrappers {
  datatype Option<+T> = None | Some(value: T)
}
