/** Small shared vocabulary: optional values, Python's exceptions as error values,
    and the `max` and `min` of integers and `abs` of reals the backend uses. */
module Common {

  /** A value that may be absent: Python's `None`, or pandas' missing value (NaN). */
  datatype Option<+T> = None | Some(value: T)

  /** The exceptions the backend raises, each with its message. */
  datatype PyError =
    | ValueError(message: string)
    | KeyError(message: string)
    | AttributeError(message: string)

  /** Either the value a call returns or the exception it raises. */
  datatype Result<+T> = Success(value: T) | Failure(error: PyError)

  function Max(a: int, b: int): (r: int)
    ensures r >= a && r >= b && (r == a || r == b)
  {
    if a >= b then a else b
  }

  function Min(a: int, b: int): (r: int)
    ensures r <= a && r <= b && (r == a || r == b)
  {
    if a <= b then a else b
  }

  function AbsReal(x: real): (r: real)
    ensures r >= 0.0 && (r == x || r == -x)
  {
    if x >= 0.0 then x else -x
  }
}
