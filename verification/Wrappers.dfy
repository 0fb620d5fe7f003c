/** The optional value used throughout for a nullable column or result. */
module Wrappers {
  datatype Option<+T> = None | Some(value: T)
}
