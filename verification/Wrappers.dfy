/** The optional value the stores use for a nullable column. */
module Wrappers {
  datatype Option<+T> = None | Some(value: T)
}
