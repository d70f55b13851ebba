/** The optional value used wherever the source has `T | null` or an absent
    property (`data?`, `error?`). */
module Wrappers {

  datatype Option<+T> = None | Some(value: T)
}
