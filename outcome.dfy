/** Failure-compatible results shared by the whole model.  The source raises
    Python exceptions; here every exception becomes a `Failure` carrying which
    exception it was and, where the source reports one, the position. */
module Outcome {

  datatype Option<+T> = None | Some(value: T)

  datatype Error =
    /** `ValueError('illegal character at position i')` from preprocesseq */
    | IllegalCharacter(pos: nat)
    /** `RuntimeError('error occurs at position i')` from parseeq */
    | ErrorAt(pos: nat)
    /** `KeyError` from looking up the action of the non-state `None` in parseeq */
    | NoAction
    /** `IndexError` from reading the top of an empty stack in parseeq */
    | EmptyStack
    /** a count with a decimal point reached `float()` in parseeq (not modelled) */
    | DecimalCount(pos: nat)
    /** `ZeroDivisionError` from proc_basis dividing by a zero gcd */
    | ZeroDivision

  datatype Result<+T> = Success(value: T) | Failure(error: Error) {
    predicate IsFailure() { Failure? }
    function PropagateFailure<U>(): Result<U>
      requires Failure?
    {
      Failure(error)
    }
    function Extract(): T
      requires Success?
    {
      value
    }
  }
}
