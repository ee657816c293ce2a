/** Optional values: an absent DOM node, attribute or map entry. */
module Wrappers {

  datatype Option<+T> = None | Some(value: T)

}
