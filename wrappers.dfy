/** Optional values, used wherever the source has `undefined`, `None` or a missing entry. */
module Wrappers {

  datatype Option<+T> = None | Some(value: T)
}
