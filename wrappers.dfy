/** An optional value: `None` stands for the JavaScript `false` / `undefined` a function
    returns when it has nothing to give back. */
module Wrappers {
  datatype Option<+T> = None | Some(value: T)
}
