/** The optional value used wherever the source relies on `null`, `undefined` or `""`
    to mean "nothing here". */
module Wrappers {

  datatype Option<+T> = None | Some(value: T)
}
