/** The optional value used for the fields that the data model marks with `?`. */
module Wrappers {

  datatype Option<+T> = None | Some(value: T)
}
