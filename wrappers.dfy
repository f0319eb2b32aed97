/** Option and Result values standing in for the source's nullable references and thrown exceptions. */
module Wrappers {
  datatype Option<T> = None | Some(value: T)
  {
    function GetOr(default: T): (r: T)
      ensures Some? ==> r == value
      ensures None? ==> r == default
    {
      match this
      case None => default
      case Some(v) => v
    }
  }

  datatype Result<T, E> = Ok(value: T) | Err(error: E)

  /** The exception types the core throws; a thrown exception aborts the operation. */
  datatype Exception =
    | ArgumentException
    | ArgumentOutOfRangeException
    | FormatException
    | InvalidOperationException
    | NotImplementedException
    | IndexOutOfRangeException
    | NullReferenceException
}
