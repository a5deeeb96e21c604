/** Failure-compatible results shared by the whole model. */
module Basics {

  datatype Option<+T> = None | Some(value: T) {
    predicate IsFailure() { None? }
    function PropagateFailure<U>(): Option<U>
      requires None?
    {
      None
    }
    function Extract(): T
      requires Some?
    {
      value
    }
  }

  /** A call that returns a value or throws; which message it throws never decides anything. */
  datatype Result<+T> = Ok(value: T) | Throws {
    predicate IsFailure() { Throws? }
    function PropagateFailure<U>(): Result<U>
      requires Throws?
    {
      Throws
    }
    function Extract(): T
      requires Ok?
    {
      value
    }
  }

  datatype Guard = Pass | Refuse {
    predicate IsFailure() { Refuse? }
    function PropagateFailure<U>(): Result<U>
      requires Refuse?
    {
      Throws
    }
  }

  /** `if (!condition) throw ...` */
  function Need(condition: bool): Guard {
    if condition then Pass else Refuse
  }

  const MAX_SAFE_INTEGER: int := 0x1F_FFFF_FFFF_FFFF

  predicate PositiveSafeInteger(n: int) {
    0 < n <= MAX_SAFE_INTEGER
  }
}
