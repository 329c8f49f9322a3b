/** Failure-carrying values used wherever the Python code raises or returns "nothing". */
module Wrappers {

  datatype Option<+T> = None | Some(value: T) {
    function GetOr(default: T): T {
      match this
      case Some(v) => v
      case None => default
    }
  }

  /** `Err(msg)` stands for a raised exception whose `str(e)` is `msg`. */
  datatype Result<+T> = Ok(value: T) | Err(msg: string)

  /** A dict entry as `key in d` and `d[key]` see it: the key is absent,
      holds `None`, or holds a value. */
  datatype Entry<+T> = Absent | Null | Present(value: T)
}
