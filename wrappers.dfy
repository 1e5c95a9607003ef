/** The optional value the engine uses for JavaScript's `undefined`, `null` and Invalid Date. */
module Wrappers {
  datatype Option<T> = None | Some(value: T)
}
