/** An optional value: the result of a `querySelector` that may find nothing,
    or a reply that may not be sent. */
module Wrappers {

  datatype Option<+T> = None | Some(value: T)
}
