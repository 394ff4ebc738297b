/** The nullable value of a table cell: `None` stands for pandas' NaN / NaT. */
module Wrappers {
  datatype Option<+T> = None | Some(value: T)
}
