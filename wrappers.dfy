/** An optional value: a missing document field or a JavaScript `undefined`. */
module Wrappers {
  datatype Option<+T> = None | Some(value: T)
}
