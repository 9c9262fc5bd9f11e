/** The optional value used where the router passes `null` or nothing at all. */
module Wrappers {

  datatype Option<+T> = None | Some(value: T)

}
