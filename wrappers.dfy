/** The optional value used for JavaScript results that may be NaN or undefined. */
module Wrappers {

  datatype Option<+T> = None | Some(value: T)
}
