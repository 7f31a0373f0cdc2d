/** The optional value used wherever the JavaScript has `undefined` or a failed lookup. */
module Wrappers {
  datatype Option<+T> = None | Some(value: T)
}
