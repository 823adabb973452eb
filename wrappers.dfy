/** Option: a value that may be absent, standing for a possibly-null owning pointer. */
module Wrappers {

  datatype Option<+T> = None | Some(value: T)

}
