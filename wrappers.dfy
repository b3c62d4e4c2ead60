/** The optional value used for absent form fields, absent headers and failed reads. */
module Wrappers {
  datatype Option<+T> = None | Some(value: T)
}
