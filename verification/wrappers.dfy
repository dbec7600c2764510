/** Optional values, standing in for the source's `null` / absent fields. */
module Wrappers {

  datatype Option<+T> = None | Some(value: T)
}
