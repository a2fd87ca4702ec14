/** The optional value that `Array.prototype.find` returns: the element, or nothing. */
module Wrappers {
  datatype Option<+T> = None | Some(value: T)
}
