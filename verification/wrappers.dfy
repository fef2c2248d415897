/** The optional value used wherever the source has `undefined`, `null` or a
    missing object key. */
module Wrappers {

  datatype Option<+T> = None | Some(value: T)
}
