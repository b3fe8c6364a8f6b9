/** Optional values: a JavaScript field that may be absent, a Java reference that may be null. */
module Wrappers {
  datatype Option<+T> = None | Some(value: T)
}
