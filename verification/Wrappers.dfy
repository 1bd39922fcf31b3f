/** Small types used throughout. */
module Wrappers {
  /** A value that may be absent. */
  datatype Option<T> = None | Some(value: T)

  /** A shared memory cell: holding a value, or half written. */
  datatype Cell<T> = Torn | Whole(value: T)
}
