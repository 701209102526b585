/** Option, used for values a JavaScript expression may leave `undefined` or `NaN`. */
module Wrappers {

  datatype Option<+T> = None | Some(value: T)
}
