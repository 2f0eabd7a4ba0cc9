/** The optional value used where the service returns `null` or where a
    parse may fail. */
module Wrappers {

  datatype Option<+T> = None | Some(value: T)
}
