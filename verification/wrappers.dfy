/** Optional values, used wherever the parser may find nothing. */
module Wrappers {

  datatype Option<+T> = None | Some(value: T)
}
