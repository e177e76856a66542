/** The optional value used wherever the service has `None` or an absent key. */
module Wrappers {

  datatype Option<+T> = None | Some(value: T)
}
