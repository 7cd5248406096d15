/** The optional-value datatype used wherever the source has a nullable value
    or a Try-style out parameter. */
module Wrappers {

  datatype Option<+T> = None | Some(value: T)
}
