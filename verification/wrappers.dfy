/** An attribute or data-* value that may be absent from an element. */
module Wrappers {

  datatype Option<+T> = None | Some(value: T)
}
