/** Optional values, used for the source's null pointers and absent errors. */
module Wrappers {

  datatype Option<+T> = None | Some(value: T)
}
