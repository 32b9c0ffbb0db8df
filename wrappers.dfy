/** The optional value that lookups in the models return. */
module Wrappers {

  datatype Option<+T> = None | Some(value: T)
}
