/** Optional values, standing for a value or Python's `None`/`ValueError`. */
module Wrappers {
  datatype Option<T> = None | Some(value: T)
}
