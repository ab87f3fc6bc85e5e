/** Option: a value that may be missing. In this model `None` stands for
    the NaN that pandas produces for an undefined share or an empty mean. */
module Wrappers {

  datatype Option<+T> = None | Some(value: T)

}
