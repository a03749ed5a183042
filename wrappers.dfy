/** Optional values: a reference the Unity inspector may leave unassigned. */
module Wrappers {

  datatype Option<+T> = None | Some(value: T)
}
