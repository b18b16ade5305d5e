/** The optional value used for JavaScript's `null` / `undefined` slots of the model. */
module Wrappers {

  datatype Option<+T> = None | Some(value: T)
}
