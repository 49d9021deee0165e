/** The optional-value datatype the model uses for nullable pointers and
    for components that may or may not be attached to an item. */
module Wrappers {

  datatype Option<+T> = None | Some(value: T)

}
