/** The optional value used for reads that can fail (end of input) and for parses that can fail. */
module Wrappers {
  datatype Option<+T> = None | Some(value: T)
}
