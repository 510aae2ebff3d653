/** Outcome wrapper shared by the puzzles: `None` stands for the inputs on which the
    original program panics (an `unwrap` on a missing entry, an `unreachable!`) or for a
    search that did not finish within its fuel. */
module Wrappers {
  datatype Option<T> = None | Some(value: T)
}
