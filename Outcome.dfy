/** The general outcome types the other modules share. */
module Outcome {

  datatype Option<T> = None | Some(value: T)

  /** The outcome of a scan over numbered lines: its value, or the index of
      the line whose tokenisation raised the uncaught `ValueError` that ends
      the script. */
  datatype Result<T> = Ok(value: T) | Aborted(line: nat)
}
