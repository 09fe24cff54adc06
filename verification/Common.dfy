/** Values shared by the models: an optional value and a success-or-error value. */
module Common {

  datatype Option<+T> = None | Some(value: T)

  datatype Result<+T, +E> = Ok(value: T) | Err(error: E)

  function Max(a: real, b: real): real {
    if a < b then b else a
  }

  // The verdict of an acceptance run.
  datatype AcceptanceVerdict = PASS | CONDITIONAL | FAIL
}
