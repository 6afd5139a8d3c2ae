/** Optional values, used where the C++ code uses std::optional. */
module Wrappers {
  datatype Option<+T> = None | Some(value: T)
}
