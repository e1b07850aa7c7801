/** The optional value used wherever the handlers may find nothing:
    a parsed id that is NaN, a lookup with no match. */
module Wrappers {

  datatype Option<+T> = None | Some(value: T)
}
