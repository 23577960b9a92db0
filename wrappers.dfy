/** The optional value shared by the modules of this model. */
module Wrappers {

  /** `None` stands for Python's `None`: no value was produced. */
  datatype Option<T> = None | Some(value: T)
}
