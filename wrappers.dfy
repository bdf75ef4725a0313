/** The optional value used for a path id that may not parse as an integer. */
module Wrappers {

  datatype Option<+T> = None | Some(value: T)
}
