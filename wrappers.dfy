/** Option, standing for the `T | null` values of the pages and query results. */
module Wrappers {
  datatype Option<+T> = None | Some(value: T)
}
