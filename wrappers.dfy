/** The optional value used for JavaScript's `null` and for an invalid `Date`. */
module Wrappers {

  datatype Option<+T> = None | Some(value: T)
}
