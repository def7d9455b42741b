/** Results of operations that throw in the original. Which message is thrown is not kept. */
module Outcomes {
  datatype Result<+T> = Ok(value: T) | Failure

  datatype Option<+T> = None | Some(value: T)
}
