/** The optional-value datatype the models use for "present or absent". */
module Wrappers {

  datatype Option<+T> = None | Some(value: T)
}
