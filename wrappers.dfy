/** The optional value used for the nullable references of the plugin. */
module Wrappers {

  /** `None` stands for a C# `null`. */
  datatype Option<+T> = None | Some(value: T)
}
