/** Option, Result and Outcome, and the exceptions of the Java source as values. */
module Wrappers {

  /** A reference that may be null. */
  datatype Option<+T> = None | Some(value: T)

  /** The unchecked exceptions the matching domain throws. */
  datatype Error =
    | IllegalArgument(message: string)
    | IllegalState(message: string)
    | NullPointer
    | NoSuchElement

  /** The value a Java call returns, or the exception it throws. */
  datatype Result<+T> = Success(value: T) | Failure(error: Error) {

    predicate IsFailure() {
      Failure?
    }

    function PropagateFailure<U>(): Result<U>
      requires Failure?
    {
      Failure(error)
    }

    function Extract(): T
      requires Success?
    {
      value
    }
  }

  /** The outcome of a `void` Java method: it returns, or it throws. */
  datatype Outcome = Pass | Fail(error: Error)

  /** The values of a Java `int`. */
  type Int32 = x: int | -0x8000_0000 <= x < 0x8000_0000

  /** Java `int` arithmetic: the exact result reduced to 32 bits, two's
      complement. */
  function WrapInt32(x: int): (r: Int32)
    ensures -0x8000_0000 <= x < 0x8000_0000 ==> r == x
    ensures (r - x) % 0x1_0000_0000 == 0
  {
    (x + 0x8000_0000) % 0x1_0000_0000 - 0x8000_0000
  }
}
