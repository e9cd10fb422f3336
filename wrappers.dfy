/** The optional value used where the source yields `undefined`: a failed
    `Array.find`, or a JSON reply key that is absent. */
module Wrappers {

  datatype Option<+T> = None | Some(value: T)
}
