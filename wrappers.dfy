/** The nullable values of the component (`editingId` is `null` or an id). */
module Wrappers {
  datatype Option<+T> = None | Some(value: T)
}
