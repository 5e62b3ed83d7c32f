/** An optional value: JavaScript's `undefined`/`null` results and absent records. */
module Wrappers {
  datatype Option<+T> = None | Some(value: T)
}
