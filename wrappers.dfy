/** The usual optional value, used for JSON keys that may be absent (Python's `None`)
    and for lookups that may find nothing. */
module Wrappers {

  datatype Option<+T> = None | Some(value: T)
}
