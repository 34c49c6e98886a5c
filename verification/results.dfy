/** Outcome types shared by the import pipeline: the exceptions the Python code raises
    (ValueError from strptime, KeyError from a dict lookup) become error values. */
module Results {

  datatype Option<+T> = None | Some(value: T)

  /** The two exceptions that abort an import run. */
  datatype Error =
    | FormatError(input: string)   // strptime matched none of the formats
    | KeyError(key: string)        // a column (or item key) was absent

  /** A value or the error that the Python code would have raised. Usable with `:-`. */
  datatype Result<+T> = Ok(value: T) | Err(error: Error) {
    predicate IsFailure() { Err? }

    function PropagateFailure<U>(): Result<U>
      requires Err?
    {
      Err(error)
    }

    function Extract(): T
      requires Ok?
    {
      value
    }
  }
}
