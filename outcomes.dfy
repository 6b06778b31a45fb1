/** The services signal every refusal by raising the same error, so a
    failed call is one outcome with no payload. */
module Outcomes {

  datatype Option<+T> = None | Some(value: T)

  datatype Result<+T> = Ok(value: T) | Err {

    /** The success value, or `default` for a refused call. */
    function GetOr(default: T): T
    {
      match this
      case Ok(v) => v
      case Err => default
    }
  }
}
