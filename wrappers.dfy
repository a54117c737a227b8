/** Option stands for a Java reference that may be null: None is null. */
module Wrappers {

  datatype Option<+T> = None | Some(value: T)

}
