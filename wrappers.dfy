/** Option and Result: the absent values and error returns of the source (null,
    undefined, a validation failure) as datatypes. */
module Wrappers {

  datatype Option<+T> = None | Some(value: T) {
    /** `value ?? default` */
    function GetOr(default: T): T {
      match this
      case Some(v) => v
      case None => default
    }
  }

  datatype Result<+R, +E> = Ok(value: R) | Err(error: E)
}
