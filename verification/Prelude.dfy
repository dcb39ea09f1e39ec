/** The optional values used by every module of the model. */
module Prelude {

  /** A nullable database column, a lookup that may fail, or a value of the source that may be null. */
  datatype Option<+T> = None | Some(value: T)
}
