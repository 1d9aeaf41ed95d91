/** The Some/None datatype, standing for Go's "value, ok" pairs and nil errors. */
module Wrappers {

  datatype Option<+T> = None | Some(value: T)
}
