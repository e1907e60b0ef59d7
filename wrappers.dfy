/** The optional value used where the scripts return or accept `None`. */
module Wrappers {

  datatype Option<+T> = None | Some(value: T)
}
