/** The two result shapes shared by every module. */
module Basics {

  datatype Option<+T> = None | Some(value: T)

  /** A request either answers or raises; one that raises is rolled back. */
  datatype Result<+T, +E> = Ok(value: T) | Raised(error: E)
}
