/** The optional-value datatype used for Python's `None`-or-value results. */
module Wrappers {

  /** `None` stands for Python's `None` (an absent header, query parameter or parse). */
  datatype Option<+T> = None | Some(value: T)
}
