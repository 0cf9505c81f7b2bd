/** Optional values: `None` stands for a missing result or a failed step. */
module Wrappers {
  datatype Option<+T> = None | Some(value: T)
}
