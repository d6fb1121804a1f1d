/** Optional values: a JSON field that may be absent, or the page's `error` that may be null. */
module Wrappers {
  datatype Option<+T> = None | Some(value: T)
}
