/** The optional value: JavaScript's `null` (or a caught failure) is `None`. */
module Wrappers {

  datatype Option<+T> = None | Some(value: T)
}
