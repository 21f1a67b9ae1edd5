/** The optional value used for `Player.id` (`id?: number` in the source). */
module Wrappers {
  datatype Option<+T> = None | Some(value: T)
}
