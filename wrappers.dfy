/** The optional value used for JavaScript's `undefined` results and unusable replies. */
module Wrappers {

  datatype Option<+T> = None | Some(value: T)

}
