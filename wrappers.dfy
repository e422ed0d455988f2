/** Optional values, used for a missing stored file, a failed integer parse and exhausted input. */
module Wrappers {
  datatype Option<+T> = None | Some(value: T)
}
