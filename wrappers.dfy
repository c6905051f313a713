/** Small helper datatypes shared by the model. */
module Wrappers {

  /** A value that may be absent, such as the position of a task that may not be stored. */
  datatype Option<+T> = None | Some(value: T)
}
