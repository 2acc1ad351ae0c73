/** Optional values, shared by the spell and chest models. */
module Wrappers {

  datatype Option<T> = None | Some(value: T)
}
