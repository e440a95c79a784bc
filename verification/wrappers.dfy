/** The optional result of the page's point hit-test. */
module Wrappers {
  datatype Option<+T> = None | Some(value: T)
}
