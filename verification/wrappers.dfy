/** The optional-value wrapper used for the nullable entries of the bot-type table. */
module Wrappers {

  /** `None` stands for a C# `null` entry. */
  datatype Option<+T> = None | Some(value: T)
}
