/** Optional values: a C++ pointer that may be null, or a parse that may fail. */
module Wrappers {

  datatype Option<+T> = None | Some(value: T)
}
