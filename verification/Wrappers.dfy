/** The optional value shared by the models of tables and in-memory maps. */
module Wrappers {
  datatype Option<+T> = None | Some(value: T)
}
