/** The optional value used wherever a lookup or a decoder can come back empty-handed. */
module Wrappers {

  datatype Option<+T> = None | Some(value: T)
}
