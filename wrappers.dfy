/** The optional value used where the source uses `null` or an exception that may or may not be raised. */
module Wrappers {

  datatype Option<+T> = None | Some(value: T)

}
