/** The non-mutating operators of complex.py and `inverse()`: each computes
    exact Rational components and hands them to the two-argument
    constructor, which sends every component through `float` and back
    through `Rational.from_float`. */
module OperatorLaws {
  import opened Runtime
  import opened Complexes
  import opened ComplexLaws
  import R = Rationals
  import RL = RationalLaws

  /** What `Complex(x, y)` makes of two Rational components with non-zero
      denominators (complex.py:27-28). */
  function Rounded(p: Cpx, fl: Floats): Cpx
    requires WellFormed(p)
  {
    Cpx(fl.fromFloat(fl.toFloat(p.re)), fl.fromFloat(fl.toFloat(p.im)))
  }

  /** `self + other` (complex.py:73-85): a float or any other object raises
      TypeError; otherwise the result is the rounded exact sum, whose real
      part alone changes for a scalar. */
  lemma AddRounds(c: Cpx, other: Operand, fl: Floats)
    requires WellFormed(c)
    requires other.ComplexArg? ==> WellFormed(other.c)
    requires other.RatArg? ==> other.r.den != 0
    ensures other.FloatArg? || other.OtherArg? ==> Add(c, other, fl) == Err(TypeError)
    ensures !other.FloatArg? && !other.OtherArg? ==> (
      && SumParts(c, other).Ok?
      && WellFormed(SumParts(c, other).value)
      && Add(c, other, fl) == Ok(Rounded(SumParts(c, other).value, fl)))
    ensures other.ComplexArg? ==> (
      WellFormed(SumParts(c, other).value)
      && Value(SumParts(c, other).value) == CAdd(Value(c), Value(other.c)))
    ensures other.RatArg? || other.IntArg? ==> SumParts(c, other).value.im == c.im
  {
    SumPartsIsSum(c, other);
    if SumParts(c, other).Ok? {
      RL.AddIsSum(c.re, other);
      RebuildRounds(SumParts(c, other).value, fl);
    }
  }

  /** `self - other` (complex.py:87-99), the same way. */
  lemma SubRounds(c: Cpx, other: Operand, fl: Floats)
    requires WellFormed(c)
    requires other.ComplexArg? ==> WellFormed(other.c)
    requires other.RatArg? ==> other.r.den != 0
    ensures other.FloatArg? || other.OtherArg? ==> Sub(c, other, fl) == Err(TypeError)
    ensures !other.FloatArg? && !other.OtherArg? ==> (
      && DifferenceParts(c, other).Ok?
      && WellFormed(DifferenceParts(c, other).value)
      && Sub(c, other, fl) == Ok(Rounded(DifferenceParts(c, other).value, fl)))
    ensures other.ComplexArg? ==> (
      WellFormed(DifferenceParts(c, other).value)
      && Value(DifferenceParts(c, other).value) == CSub(Value(c), Value(other.c)))
    ensures other.RatArg? || other.IntArg? ==> DifferenceParts(c, other).value.im == c.im
  {
    DifferencePartsIsDifference(c, other);
    if DifferenceParts(c, other).Ok? {
      RL.SubIsDifference(c.re, other);
      RebuildRounds(DifferenceParts(c, other).value, fl);
    }
  }

  /** `self * other` (complex.py:101-121): a Complex or an int gives the
      rounded exact product; a float raises TypeError inside Rational's `*`,
      and so does a Rational, which is first turned into a float (a zero
      denominator raises ZeroDivisionError there). */
  lemma MulRounds(c: Cpx, other: Operand, fl: Floats)
    requires WellFormed(c)
    requires other.ComplexArg? ==> WellFormed(other.c)
    ensures other.ComplexArg? || other.IntArg? ==> (
      && ProductParts(c, other).Ok?
      && WellFormed(ProductParts(c, other).value)
      && Mul(c, other, fl) == Ok(Rounded(ProductParts(c, other).value, fl)))
    ensures other.ComplexArg? ==> Value(ProductParts(c, other).value) == CMul(Value(c), Value(other.c))
    ensures other.IntArg? ==>
      Value(ProductParts(c, other).value) == CMul(Value(c), CReal(other.i as real, 0.0))
    ensures other.RatArg? ==>
      Mul(c, other, fl) == Err(if other.r.den == 0 then ZeroDivisionError else TypeError)
    ensures other.FloatArg? || other.OtherArg? ==> Mul(c, other, fl) == Err(TypeError)
  {
    ProductPartsIsProduct(c, other);
    if ProductParts(c, other).Ok? {
      RebuildRounds(ProductParts(c, other).value, fl);
    }
  }

  /** `self / other` (complex.py:123-142): a zero divisor, Complex or
      scalar, raises ZeroDivisionError; a non-zero Complex gives the rounded
      exact quotient, which times `other` is `self`; a non-zero int or
      Rational divides both parts; a non-zero float raises TypeError inside
      Rational's `/`. */
  lemma DivRounds(c: Cpx, other: Operand, fl: Floats)
    requires WellFormed(c)
    requires other.ComplexArg? ==> WellFormed(other.c)
    requires other.RatArg? ==> other.r.den != 0
    ensures other.ComplexArg? && other.c.re.num == 0 && other.c.im.num == 0 ==>
      Div(c, other, fl) == Err(ZeroDivisionError)
    ensures other == IntArg(0) || other == FloatArg(0.0) || (other.RatArg? && other.r.num == 0) ==>
      Div(c, other, fl) == Err(ZeroDivisionError)
    ensures ((other.ComplexArg? && (other.c.re.num != 0 || other.c.im.num != 0))
             || (other.IntArg? && other.i != 0) || (other.RatArg? && other.r.num != 0)) ==> (
      && QuotientParts(c, other).Ok?
      && WellFormed(QuotientParts(c, other).value)
      && Div(c, other, fl) == Ok(Rounded(QuotientParts(c, other).value, fl)))
    ensures other.ComplexArg? && (other.c.re.num != 0 || other.c.im.num != 0) ==>
      CMul(Value(QuotientParts(c, other).value), Value(other.c)) == Value(c)
    ensures other.IntArg? && other.i != 0 ==>
      Value(QuotientParts(c, other).value) == CReal(Value(c).x / other.i as real, Value(c).y / other.i as real)
    ensures other.RatArg? && other.r.num != 0 ==>
      Value(QuotientParts(c, other).value)
        == CReal(Value(c).x / R.RealValue(other.r), Value(c).y / R.RealValue(other.r))
    ensures (other.FloatArg? && other.x != 0.0) || other.OtherArg? ==> Div(c, other, fl) == Err(TypeError)
  {
    match other
    case ComplexArg(o) =>
      SquaredModulusIsNorm(o);
      ZeroValue(SquaredModulus(o).value);
      if o.re.num != 0 || o.im.num != 0 {
        ComplexQuotientIsQuotient(c, o);
        RebuildRounds(QuotientParts(c, other).value, fl);
      }
    case IntArg(k) =>
      if k != 0 {
        RL.DivIsQuotient(c.re, other);
        RL.DivIsQuotient(c.im, other);
        RebuildRounds(QuotientParts(c, other).value, fl);
      }
    case RatArg(r) =>
      ZeroValue(r);
      if r.num != 0 {
        RL.DivIsQuotient(c.re, other);
        RL.DivIsQuotient(c.im, other);
        RebuildRounds(QuotientParts(c, other).value, fl);
      }
    case _ =>
  }

  /** `-self` (complex.py:283-289): the rounded negation. */
  lemma NegRounds(c: Cpx, fl: Floats)
    requires WellFormed(c)
    ensures Neg(c, fl) == Ok(Rounded(NegationParts(c), fl))
    ensures Value(NegationParts(c)) == CReal(-Value(c).x, -Value(c).y)
  {
    NegationPartsNegates(c);
    RebuildRounds(NegationParts(c), fl);
  }

  /** `inverse()` (complex.py:272-281): ValueError exactly when both parts
      are 0; otherwise the rounded reciprocal, which times `self` is 1. */
  lemma InverseRounds(c: Cpx, fl: Floats)
    requires WellFormed(c)
    ensures c.re.num == 0 && c.im.num == 0 ==> Inverse(c, fl) == Err(ValueError)
    ensures c.re.num != 0 || c.im.num != 0 ==> (
      && InverseParts(c).Ok?
      && WellFormed(InverseParts(c).value)
      && CMul(Value(InverseParts(c).value), Value(c)) == CReal(1.0, 0.0)
      && Inverse(c, fl) == Ok(Rounded(InverseParts(c).value, fl))
      && WellFormed(Inverse(c, fl).value))
  {
    InversePartsIsReciprocal(c);
    if c.re.num != 0 || c.im.num != 0 {
      RebuildRounds(InverseParts(c).value, fl);
    }
  }
}
