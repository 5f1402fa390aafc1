/** The optional value used where the calculator returns `null`. */
module Wrappers {

  datatype Option<+T> = None | Some(value: T)
}
