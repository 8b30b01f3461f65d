/** The missing-value marker of the model: `None` stands for a NaN cell. */
module Wrappers {

  datatype Option<+T> = None | Some(value: T)

}
