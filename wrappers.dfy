/** Option and Result, the two wrapper types the Rust code returns everywhere. */
module Wrappers {
  datatype Option<T> = None | Some(value: T)
  {
    function GetOr(default: T): (r: T)
      ensures Some? ==> r == value
      ensures None? ==> r == default
    {
      match this
      case Some(v) => v
      case None => default
    }
  }

  /** `anyhow::Result`: the error is kept as its message. */
  datatype Result<T> = Ok(value: T) | Err(error: string)
}
