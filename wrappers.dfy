/** Optional values, for results that may be absent (a NULL pointer in C). */
module Wrappers {

  datatype Option<+T> = None | Some(value: T)
}
