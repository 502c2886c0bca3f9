/** The optional-value datatype used for JavaScript's `null` results and for empty board squares. */
module Wrappers {

  datatype Option<+T> = None | Some(value: T)
}
