/**
 * Tolerance-based positioning of a caret-like control (AbstractCaretOwner and
 * its nested ToPosition).
 *
 * The owner keeps a non-negative tolerance. `To` packages a target descriptor
 * that the caret's driving loop consults: the descriptor's `To()` re-reads the
 * owner's current position on every call and answers 0 (at target), 1 (move
 * up) or -1 (move down). Java `double`s are modelled as `real`.
 */
module Caret {
  import opened Errors

  /** The IllegalArgumentException "Precision could not be less than 0". */
  datatype CaretError = NegativePrecision

  function Abs(x: real): real
  {
    if x < 0.0 then -x else x
  }

  /**
   * The three-way decision of `ToPosition.to()`: `value` is the target,
   * `current` the owner's position and `error` the tolerance.
   */
  function Decide(value: real, current: real, error: real): (r: int)
    ensures r == 0 || r == 1 || r == -1
    ensures r == 0 <==> Abs(value - current) <= error
    ensures r == 1 <==> Abs(value - current) > error && value > current
    ensures r == -1 <==> Abs(value - current) > error && value <= current
  {
    var diff := value - current;
    if Abs(diff) <= error then 0 else if diff > 0.0 then 1 else -1
  }

  /** The owner of a caret: a mutable tolerance and the control's current position. */
  class AbstractCaretOwner {
    var error: real
    /** The position the live control reports; it is moved by the caret, not by this class. */
    var position: real

    /** The tolerance is never negative. */
    ghost predicate Valid()
      reads this
    {
      error >= 0.0
    }

    /** A fresh owner has tolerance 0, the Java default of a `double` field. */
    constructor (position: real)
      ensures Valid()
      ensures AllowedError() == 0.0 && Position() == position
    {
      this.error := 0.0;
      this.position := position;
    }

    /** `allowedError()`. */
    function AllowedError(): (e: real)
      reads this
      requires Valid()
      ensures e >= 0.0
    {
      error
    }

    /** `CaretOwner.position()`, read fresh from the control. */
    function Position(): real
      reads this
    {
      position
    }

    /** `allowError(e)`: a negative tolerance is refused and the old one kept. */
    method AllowError(e: real) returns (r: Outcome<CaretError>)
      requires Valid()
      modifies this`error
      ensures Valid()
      ensures e < 0.0 ==> r == Fail(NegativePrecision) && error == old(error)
      ensures e >= 0.0 ==> r == Pass && AllowedError() == e
    {
      if e < 0.0 {
        return Fail(NegativePrecision);
      }
      error := e;
      r := Pass;
    }

    /** `to(position)`: the descriptor handed to the caret's driving loop. */
    method To(target: real) returns (tp: ToPosition)
      requires Valid()
      ensures tp.caret == this && tp.value == target && tp.error == AllowedError()
      ensures tp.To() == 0 <==> Abs(target - Position()) <= AllowedError()
    {
      tp := ToPosition(this, target, error);
    }
  }

  /**
   * A target descriptor: the owner whose position is consulted (`getCaret()`),
   * the target (`position()`) and the tolerance. The three-argument constructor
   * is the datatype constructor; it does not validate the tolerance.
   */
  datatype ToPosition = ToPosition(caret: AbstractCaretOwner, value: real, error: real)
  {
    /** `diff()`: how far the target lies above the current position. */
    function Diff(): (d: real)
      reads caret
      ensures caret.Position() + d == value
    {
      value - caret.Position()
    }

    /** `to()`: 0 at target, 1 to increase, -1 to decrease. */
    function To(): (r: int)
      reads caret
      ensures r == 0 || r == 1 || r == -1
      ensures r == 0 <==> Abs(Diff()) <= error
      ensures r == 1 <==> Abs(Diff()) > error && Diff() > 0.0
      ensures r == -1 <==> Abs(Diff()) > error && Diff() <= 0.0
    {
      Decide(value, caret.Position(), error)
    }
  }

  /** The two-argument constructor: a descriptor with tolerance 0. */
  function Exact(caret: AbstractCaretOwner, value: real): (tp: ToPosition)
    ensures tp.caret == caret && tp.value == value && tp.error == 0.0
  {
    ToPosition(caret, value, 0.0)
  }

  /** With a non-negative tolerance, outside it the direction is the sign of the distance. */
  lemma DirectionIsSign(value: real, current: real, error: real)
    requires error >= 0.0
    ensures Decide(value, current, error) == -1 <==> Abs(value - current) > error && value < current
    ensures Decide(value, current, error) != 0 ==> value != current
  {
  }

  /** With tolerance 0 the descriptor reports "at target" only on the exact position. */
  lemma ExactOnlyAtTarget(caret: AbstractCaretOwner, value: real)
    ensures Exact(caret, value).To() == 0 <==> caret.Position() == value
  {
  }

  /** An unvalidated negative tolerance is never met, not even on the target itself,
      where `to()` answers -1. */
  lemma NegativeToleranceNeverAtTarget(value: real, current: real, error: real)
    requires error < 0.0
    ensures Decide(value, current, error) != 0
    ensures current == value ==> Decide(value, current, error) == -1
  {
  }

  /** The answers for target 10 and tolerance 0.5 at positions 10.3, 9 and 11. */
  lemma WorkedExamples()
    ensures Decide(10.0, 10.3, 0.5) == 0
    ensures Decide(10.0, 9.0, 0.5) == 1
    ensures Decide(10.0, 11.0, 0.5) == -1
  {
  }
}
