/** The optional value used across the model: an absent JSON member, a null
    session, a missing reader. */
module Wrappers {

  datatype Option<+T> = None | Some(value: T)
}
