/** Option stands for a JavaScript value that may be absent: `null` from a
    route strategy, or a number that is NaN ("undefined, do not draw"). */
module Wrappers {

  datatype Option<+T> = None | Some(value: T)
}
