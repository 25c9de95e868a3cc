/** Optional values: `None` stands for a null pointer passed by the caller. */
module Wrappers {
  datatype Option<+T> = None | Some(value: T)
}
