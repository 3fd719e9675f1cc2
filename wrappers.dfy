/** An optional value: the model's stand-in for a TypeScript property that may be
    `undefined` or `null`. */
module Wrappers {

  datatype Option<+T> = None | Some(value: T)
}
