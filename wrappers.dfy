/** The optional value used for dictionary lookups and `.first()`-style queries. */
module Wrappers {

  datatype Option<+T> = None | Some(value: T)

}
