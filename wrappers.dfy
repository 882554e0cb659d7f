/** Optional values: an output slot or an input property that may still be unset. */
module Wrappers {

  /** `None` stands for JavaScript's `undefined` in a slot nobody has written yet. */
  datatype Option<+T> = None | Some(value: T)
}
