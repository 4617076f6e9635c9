/** The "absent" outcome of the queue's accessors, which the source signals with `undefined`. */
module Wrappers {

  datatype Option<+T> = None | Some(value: T)
}
