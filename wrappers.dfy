/** The absent-or-present value the game uses for "no pending selection"
    and for a pixel that lies on no box (Python's None). */
module Wrappers {
  datatype Option<+T> = None | Some(value: T)
}
