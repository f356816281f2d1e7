/** The optional-value datatype shared by the readers of rendered text. */
module Wrappers {
  datatype Option<+T> = None | Some(value: T)
}
