/** Optional values: a nullable field or an absent JSON key. */
module Wrappers {

  datatype Option<+T> = None | Some(value: T)

}
