/** What every module needs and none of them owns. */
module Basics {

  /** A value, or the failure of an operation of the source that throws. */
  datatype Option<+T> = None | Some(value: T) {
    predicate IsFailure() { None? }
    function PropagateFailure<U>(): Option<U> requires None? { None }
    function Extract(): T requires Some? { value }
  }

  function Max(a: int, b: int): int { if a >= b then a else b }

  function Magnitude(x: int): nat { if x < 0 then -x else x }
}
