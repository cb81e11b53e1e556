/** The optional value used for JavaScript's "maybe undefined" results. */
module Wrappers {

  datatype Option<+T> = None | Some(value: T)
}
