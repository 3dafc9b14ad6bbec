/** The optional value used wherever the source has a nullable column or an absent row. */
module Wrappers {
  datatype Option<+T> = None | Some(value: T)
}
