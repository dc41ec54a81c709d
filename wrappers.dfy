/** The optional value the pages return where the source returns None. */
module Wrappers {
  datatype Option<+T> = None | Some(value: T)
}
