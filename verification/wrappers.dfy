/** The optional value used for a PHP argument that may be `null` and for a
    read-back that may fail. */
module Wrappers {

  datatype Option<+T> = None | Some(value: T)
}
