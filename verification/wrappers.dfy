/** Failure-compatible wrappers shared by every module of the model. */
module Wrappers {

  /** A value that may be absent, as Python's `Optional[...]` / `None`. */
  datatype Option<+T> = None | Some(value: T) {
    function GetOr(default: T): T {
      match this
      case Some(v) => v
      case None => default
    }
  }

  /** The outcome of an operation that may raise: `Err` carries the exception. */
  datatype Result<+T, +E> = Ok(value: T) | Err(error: E)

  function Min(a: real, b: real): real { if a <= b then a else b }
  function Max(a: real, b: real): real { if a >= b then a else b }
  function MinNat(a: nat, b: nat): nat { if a <= b then a else b }
}
