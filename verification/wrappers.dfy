/** Optional values: a nullable column or a lookup that may find nothing. */
module Wrappers {

  datatype Option<+T> = None | Some(value: T)

}
