/** The optional value used for JavaScript's "no number here" outcomes. */
module Wrappers {
  datatype Option<+T> = None | Some(value: T)
}
