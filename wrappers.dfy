/** Option and Result values for the JavaScript code's `null`/`undefined` and thrown errors. */
module Wrappers {
  datatype Option<T> = None | Some(value: T)
  {
    predicate IsSome() { Some? }

    function GetOr(default: T): T
    {
      match this
      case None => default
      case Some(v) => v
    }
  }

  /** A thrown JavaScript error is modelled by `Err` carrying its message. */
  datatype Result<T> = Ok(value: T) | Err(error: string)
  {
    predicate IsFailure() { Err? }
  }
}
