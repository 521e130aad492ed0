/** Option and Result values used for the places where the program raises
    (a missing dictionary key, a division by zero, a failed request). */
module Outcomes {

  datatype Option<+T> = None | Some(value: T)

  datatype Result<+T, +E> = Ok(value: T) | Err(error: E)
}
