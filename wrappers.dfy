/** Option and Result, as used throughout the model for Python's `None` and exceptions. */
module Wrappers {

  datatype Option<+T> = None | Some(value: T) {
    function GetOr(default: T): T {
      match this
      case Some(v) => v
      case None => default
    }
  }

  datatype Result<+R, +E> = Ok(value: R) | Err(error: E)
}

/** The Python exceptions the modelled code can raise (or lets escape). */
module Exceptions {

  datatype PyError =
    | AssertionError   // `assert` statements and the `assert False` stubs
    | AttributeError   // an attribute read on `None`
    | KeyError         // `dict[key]` / `dict.pop(key)` on a missing key
    | IndexError       // `seq[i]` out of range
    | ValueError       // `int(s)` on a non-numeric string
    | ValidationError  // `sdx_pce.utils.exceptions.ValidationError`
    | ZeroDivisionError // a division by zero
}
