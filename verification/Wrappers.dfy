// Result types shared by the modules: a value that may be missing.
module Wrappers {
  datatype Option<+T> = None | Some(value: T)
}
