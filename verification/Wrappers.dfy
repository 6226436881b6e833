/** The optional value the other modules use for nullable columns. */
module Wrappers {

  datatype Option<+T> = None | Some(value: T)
}
