/** The optional value used where Python code yields `None` or a value. */
module Wrappers {

  datatype Option<+T> = None | Some(value: T)
}
