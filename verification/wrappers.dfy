/** The optional value used for Python's `None` results (`next(..., None)`, `re.search`). */
module Wrappers {

  datatype Option<+T> = None | Some(value: T)

}
