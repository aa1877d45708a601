/** Option and Result types standing for Python's `None`, NaN and raised exceptions. */
module Outcomes {

  datatype Option<+T> = None | Some(value: T)

  /** The exceptions the modelled code can raise. */
  datatype Error =
    | ShapeMismatch     // vectors of different lengths: the `DataFrame` or the shape assertion rejects them
    | EmptyArray        // `.max()` of a zero-size array
    | IndexOutOfRange   // `alphabet[i]` past the end of `alphabet`
    | AssertionFailed   // a failed `assert` statement or an explicit `AssertionError`
    | FormatError       // `'%g' % v` of an array with more than one entry (`TypeError`)

  datatype Result<+T> = Ok(value: T) | Err(error: Error)
}
