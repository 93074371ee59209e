/** The optional value used where the JavaScript screens get back `undefined` or `null`. */
module Wrappers {

  datatype Option<+T> = None | Some(value: T)
}
