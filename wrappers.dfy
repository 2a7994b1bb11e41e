/** The optional-value datatype used for the fields a JSON body or a JavaScript call may leave undefined. */
module Wrappers {

  datatype Option<+T> = None | Some(value: T)
}
