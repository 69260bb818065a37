/** The optional value used wherever the integration reads a field that may be absent. */
module Wrappers {

  datatype Option<+T> = None | Some(value: T)
}
