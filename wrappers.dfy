/** Optional values: `None` stands for a cell pandas leaves as NaN. */
module Wrappers {

  datatype Option<+T> = None | Some(value: T)
}
