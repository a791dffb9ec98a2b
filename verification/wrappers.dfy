/** Optional values, used for the nullable pointers of the statistics layer. */
module Wrappers {

  /** A value that may be absent, as a C pointer that may be NULL. */
  datatype Option<+T> = None | Some(value: T)
}
