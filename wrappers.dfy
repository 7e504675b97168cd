/** JavaScript's "a value or `undefined`", as an optional value. */
module Wrappers {

  datatype Option<+T> = None | Some(value: T)
}
