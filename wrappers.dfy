/** The optional-value datatype used for unset capture groups, an absent
    named-group object and a failed match. */
module Wrappers {

  datatype Option<+T> = None | Some(value: T)
}
