/** The optional value used wherever the game's code returns `null`
    or `undefined` for "nothing". */
module Wrappers {

  datatype Option<+T> = None | Some(value: T)

}
