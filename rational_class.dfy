/** The Rational object of rational.py: two integer fields written through
    setters, `reduce` with its gcd loop, and the in-place operators that
    rewrite the receiver. The values these leave behind are the ones the
    functions of module Rationals describe. */
module RationalObjects {
  import opened Runtime
  import opened Euclid
  import opened Rationals
  import opened RationalLaws

  /** The gcd helper nested in reduce (rational.py:84-87): Euclid's loop with
      Python's `%`. The result divides both arguments, every common divisor
      divides it, and for `b != 0` it carries the sign of `b`. */
  method Gcd(a: int, b: int) returns (g: int)
    ensures g == PyGcd(a, b)
    ensures Divides(g, a) && Divides(g, b)
    ensures forall k :: Divides(k, a) && Divides(k, b) ==> Divides(k, g)
    ensures b == 0 ==> g == a
    ensures b > 0 ==> g > 0
    ensures b < 0 ==> g < 0
  {
    var x, y := a, b;
    while y != 0
      invariant PyGcd(x, y) == PyGcd(a, b)
      decreases Abs(y)
    {
      x, y := y, PyMod(x, y);
    }
    g := x;
    GcdSign(a, b);
    GcdDivides(a, b);
    forall k | Divides(k, a) && Divides(k, b)
      ensures Divides(k, g)
    {
      GcdGreatest(a, b, k);
    }
  }

  class Rational {
    var numerator: int
    var denominator: int

    /** The two fields as a value. */
    function Value(): Rat
      reads this
    {
      Rat(numerator, denominator)
    }

    /** `Rational(n, m)` (rational.py:10-19): stores both fields directly,
        bypassing the setters, so nothing is reduced and a zero denominator
        is accepted. */
    constructor(n: int, m: int)
      ensures Value() == Rat(n, m)
    {
      numerator := n;
      denominator := m;
    }

    /** The numerator setter given an int (rational.py:32-45). */
    method SetNumerator(v: int)
      modifies this
      ensures numerator == v && denominator == old(denominator)
    {
      numerator := v;
    }

    /** The denominator setter given an int (rational.py:56-75): 0 is
        rejected with ValueError and the field is left as it was. */
    method SetDenominator(v: int) returns (outcome: Outcome)
      modifies this
      ensures numerator == old(numerator)
      ensures v == 0 ==> outcome == Raised(ValueError) && denominator == old(denominator)
      ensures v != 0 ==> outcome == Done && denominator == v
    {
      if v == 0 {
        return Raised(ValueError);
      }
      denominator := v;
      outcome := Done;
    }

    /** `reduce()` (rational.py:78-107). */
    method Reduce() returns (outcome: Outcome)
      modifies this
      ensures Step(Value(), outcome) == ReduceStep(old(Value()))
      ensures old(denominator) != 0 ==> (
        outcome == Done && Canonical(Value())
        && RealValue(Value()) == RealValue(old(Value())))
      ensures old(denominator) == 0 && old(numerator) == 0 ==>
        outcome == Raised(ZeroDivisionError) && Value() == old(Value())
      ensures old(denominator) == 0 && old(numerator) != 0 ==>
        outcome == Raised(ValueError) && Value() == Rat(1, 0)
    {
      ghost var before := Value();
      var g := Gcd(numerator, denominator);
      if g == 0 {
        // `numerator // 0` raises before any field is written.
        outcome := Raised(ZeroDivisionError);
      } else {
        SetNumerator(PyFloorDiv(numerator, g));
        outcome := SetDenominator(PyFloorDiv(denominator, g));
        if outcome == Done && denominator < 0 {
          SetNumerator(numerator * -1);
          outcome := SetDenominator(denominator * -1);
        }
      }
      if before.den != 0 {
        ReduceNormalises(before);
      } else {
        ReduceZeroDenominator(before);
      }
    }

    /** Write the numerator, then the denominator through its setter, then
        reduce. */
    method WriteAndReduceFields(n: int, d: int) returns (outcome: Outcome)
      modifies this
      ensures Step(Value(), outcome) == WriteAndReduce(old(Value()), n, d)
    {
      SetNumerator(n);
      outcome := SetDenominator(d);
      if outcome == Done {
        outcome := Reduce();
      }
    }

    /** `self += other` (rational.py:230-249). */
    method AddInPlace(other: Operand) returns (outcome: Outcome)
      modifies this
      ensures Step(Value(), outcome) == InPlaceAdd(old(Value()), other)
      ensures other.RatArg? && old(denominator) != 0 && other.r.den != 0 ==> (
        outcome == Done && Canonical(Value())
        && RealValue(Value()) == RealValue(old(Value())) + RealValue(other.r))
      ensures other.IntArg? ==> (
        outcome == Done && denominator == old(denominator)
        && numerator == old(numerator) + other.i * old(denominator))
    {
      ghost var before := Value();
      match other {
      case RatArg(b) =>
        outcome := WriteAndReduceFields(numerator * b.den + b.num * denominator, denominator * b.den);
      case IntArg(k) =>
        SetNumerator(numerator + k * denominator);
        outcome := Done;
      case _ =>
        outcome := Raised(TypeError);
      }
      if before.den != 0 && other.RatArg? && other.r.den != 0 {
        InPlaceAddAgrees(before, other);
        AddIsSum(before, other);
      }
    }

    /** `self -= other` (rational.py:252-272). */
    method SubInPlace(other: Operand) returns (outcome: Outcome)
      modifies this
      ensures Step(Value(), outcome) == InPlaceSub(old(Value()), other)
      ensures other.RatArg? && old(denominator) != 0 && other.r.den != 0 ==> (
        outcome == Done && Canonical(Value())
        && RealValue(Value()) == RealValue(old(Value())) - RealValue(other.r))
      ensures other.IntArg? && old(denominator) != 0 ==> (
        outcome == Done && Canonical(Value())
        && RealValue(Value()) == RealValue(old(Value())) - other.i as real)
    {
      ghost var before := Value();
      match other {
      case RatArg(b) =>
        outcome := WriteAndReduceFields(numerator * b.den - denominator * b.num, denominator * b.den);
      case IntArg(k) =>
        SetNumerator(numerator - k * denominator);
        outcome := Reduce();
      case _ =>
        outcome := Raised(TypeError);
      }
      if before.den != 0 {
        InPlaceSubAgrees(before, other);
        if other.RatArg? && other.r.den != 0 {
          SubIsDifference(before, other);
        }
      }
    }

    /** `self *= other` (rational.py:275-295). */
    method MulInPlace(other: Operand) returns (outcome: Outcome)
      modifies this
      ensures Step(Value(), outcome) == InPlaceMul(old(Value()), other)
      ensures other.RatArg? && old(denominator) != 0 && other.r.den != 0 ==> (
        outcome == Done && Canonical(Value())
        && RealValue(Value()) == RealValue(old(Value())) * RealValue(other.r))
      ensures other.IntArg? && old(denominator) != 0 ==> (
        outcome == Done && Canonical(Value())
        && RealValue(Value()) == RealValue(old(Value())) * other.i as real)
    {
      ghost var before := Value();
      match other {
      case RatArg(b) =>
        outcome := WriteAndReduceFields(numerator * b.num, denominator * b.den);
      case IntArg(k) =>
        SetNumerator(numerator * k);
        outcome := Reduce();
      case _ =>
        outcome := Raised(TypeError);
      }
      if before.den != 0 && (other.IntArg? || (other.RatArg? && other.r.den != 0)) {
        InPlaceMulAgrees(before, other);
        MulIsProduct(before, other);
      }
    }

    /** `self /= other` (rational.py:298-322). */
    method DivInPlace(other: Operand) returns (outcome: Outcome)
      modifies this
      ensures Step(Value(), outcome) == InPlaceDiv(old(Value()), other)
      ensures other.RatArg? && other.r.num == 0 ==>
        outcome == Raised(ZeroDivisionError) && Value() == old(Value())
      ensures other == IntArg(0) ==> outcome == Raised(ValueError) && Value() == old(Value())
      ensures other.RatArg? && other.r.num != 0 && old(denominator) != 0 && other.r.den != 0 ==> (
        outcome == Done && Canonical(Value())
        && RealValue(Value()) == RealValue(old(Value())) / RealValue(other.r))
      ensures other.IntArg? && other.i != 0 && old(denominator) != 0 ==> (
        outcome == Done && Canonical(Value())
        && RealValue(Value()) == RealValue(old(Value())) / other.i as real)
    {
      ghost var before := Value();
      match other {
      case RatArg(b) =>
        if b.num == 0 {
          outcome := Raised(ZeroDivisionError);
        } else {
          outcome := WriteAndReduceFields(numerator * b.den, denominator * b.num);
        }
      case IntArg(k) =>
        if k == 0 {
          outcome := Raised(ValueError);
        } else {
          outcome := SetDenominator(denominator * k);
          if outcome == Done {
            outcome := Reduce();
          }
        }
      case _ =>
        outcome := Raised(TypeError);
      }
      if before.den != 0 {
        InPlaceDivAgrees(before, other);
        if other.RatArg? && other.r.num != 0 && other.r.den != 0 {
          DivIsQuotient(before, other);
        }
      }
    }
  }
}
