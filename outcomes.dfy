/** Option and Result, the two shapes the supervisor's values come in:
    `Option<u16>` for the port slot and `Result<u16, String>` for the query. */
module Outcomes {

  datatype Option<+T> = None | Some(value: T)

  datatype Result<+T, +E> = Ok(value: T) | Err(error: E)
}
