/** The optional value used for a layer that may not be found and a snapshot that may be absent. */
module Wrappers {

  datatype Option<+T> = None | Some(value: T)

}
