/** The optional value returned by lookups: `None` for a miss, `Some(v)` for a hit. */
module Wrappers {

  datatype Option<+T> = None | Some(value: T)
}
