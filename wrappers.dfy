/** The optional-value datatype shared by the engine and the store. */
module Wrappers {

  datatype Option<+T> = None | Some(value: T)
}
