/** The optional-value datatype used for partial decodings and optional actions. */
module Wrappers {
  datatype Option<+T> = None | Some(value: T)
}
