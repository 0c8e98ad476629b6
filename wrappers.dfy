/** The optional value a store lookup or a decode produces. */
module Wrappers {

  datatype Option<+T> = None | Some(value: T)
}
