/** The optional value used for Python's `None`, for dictionary keys that may be absent,
    and for operations that may raise. */
module Wrappers {

  datatype Option<+T> = None | Some(value: T)

}
