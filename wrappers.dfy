/** Option type used for values that may be absent (a JavaScript `undefined` or `null`). */
module Wrappers {
  datatype Option<+T> = None | Some(value: T)
}
