/** Option: the model's stand-in for a null `Transaction*` or an absent value. */
module Wrappers {

  datatype Option<+T> = None | Some(value: T)
}
