/** The optional value used wherever the source tests a lookup result for truthiness. */
module Wrappers {

  datatype Option<+T> = None | Some(value: T)

}
