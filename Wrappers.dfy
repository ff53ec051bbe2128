/** The optional-value datatype used for empty form fields and missing replies. */
module Wrappers {
  datatype Option<+T> = None | Some(value: T)
}
