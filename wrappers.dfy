/** The usual optional-value datatype: an element the page may not contain,
    or a stored value that may be missing. */
module Wrappers {

  datatype Option<+T> = None | Some(value: T)
}
