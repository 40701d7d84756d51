/** The Complex object of complex.py: two Rational components that the
    in-place operators rewrite, `inverse()`, and `**`, whose loop squares the
    receiver itself. Each method leaves the components that the functions of
    module Complexes describe. */
module ComplexObjects {
  import opened Runtime
  import C = Complexes
  import opened ComplexLaws
  import opened OperatorLaws
  import opened PowerLaws
  import R = Rationals

  class Complex {
    var realPart: Rat
    var imagPart: Rat

    /** The two components as a value. */
    function Parts(): Cpx
      reads this
    {
      Cpx(realPart, imagPart)
    }

    /** An object holding the components `c`; which components each form of
        `Complex(...)` (complex.py:11-28) builds is `C.ConstructOne` and
        `C.ConstructTwo`. */
    constructor(c: Cpx)
      ensures Parts() == c
    {
      realPart := c.re;
      imagPart := c.im;
    }

    /** `self += other` (complex.py:168-182). */
    method AddInPlace(other: Operand) returns (outcome: Outcome)
      modifies this
      ensures C.CStep(Parts(), outcome) == C.InPlaceAdd(old(Parts()), other)
      ensures WellFormed(old(Parts())) && other.ComplexArg? && WellFormed(other.c) ==>
        outcome == Done && WellFormed(Parts())
        && Value(Parts()) == CAdd(Value(old(Parts())), Value(other.c))
      ensures WellFormed(old(Parts())) && other.IntArg? ==>
        outcome == Done && imagPart == old(imagPart)
        && Value(Parts()) == CAdd(Value(old(Parts())), CReal(other.i as real, 0.0))
      ensures other.FloatArg? || other.OtherArg? ==> outcome == Raised(TypeError) && Parts() == old(Parts())
    {
      if WellFormed(Parts()) && (other.IntArg? || (other.ComplexArg? && WellFormed(other.c))) {
        InPlaceAddIsSum(Parts(), other);
        SumPartsIsSum(Parts(), other);
      }
      match other {
      case ComplexArg(o) =>
        var s := R.InPlaceAdd(realPart, RatArg(o.re));
        realPart := s.state;
        outcome := s.outcome;
        if outcome == Done {
          var t := R.InPlaceAdd(imagPart, RatArg(o.im));
          imagPart := t.state;
          outcome := t.outcome;
        }
      case OtherArg =>
        outcome := Raised(TypeError);
      case _ =>
        var s := R.InPlaceAdd(realPart, other);
        realPart := s.state;
        outcome := s.outcome;
      }
    }

    /** `self -= other` (complex.py:184-198). */
    method SubInPlace(other: Operand) returns (outcome: Outcome)
      modifies this
      ensures C.CStep(Parts(), outcome) == C.InPlaceSub(old(Parts()), other)
      ensures WellFormed(old(Parts())) && other.ComplexArg? && WellFormed(other.c) ==>
        outcome == Done && WellFormed(Parts())
        && Value(Parts()) == CSub(Value(old(Parts())), Value(other.c))
      ensures WellFormed(old(Parts())) && other.IntArg? ==>
        outcome == Done && imagPart == old(imagPart) && R.Canonical(realPart)
        && Value(Parts()) == CSub(Value(old(Parts())), CReal(other.i as real, 0.0))
      ensures other.FloatArg? || other.OtherArg? ==> outcome == Raised(TypeError) && Parts() == old(Parts())
    {
      if WellFormed(Parts()) && (other.IntArg? || (other.ComplexArg? && WellFormed(other.c))) {
        InPlaceSubIsDifference(Parts(), other);
        DifferencePartsIsDifference(Parts(), other);
      }
      match other {
      case ComplexArg(o) =>
        var s := R.InPlaceSub(realPart, RatArg(o.re));
        realPart := s.state;
        outcome := s.outcome;
        if outcome == Done {
          var t := R.InPlaceSub(imagPart, RatArg(o.im));
          imagPart := t.state;
          outcome := t.outcome;
        }
      case OtherArg =>
        outcome := Raised(TypeError);
      case _ =>
        var s := R.InPlaceSub(realPart, other);
        realPart := s.state;
        outcome := s.outcome;
      }
    }

    /** `self *= other` (complex.py:200-219): with a Complex, both new
        components are computed from the old ones before either is written,
        so `c *= c` squares `c`. */
    method MulInPlace(other: Operand, fl: C.Floats) returns (outcome: Outcome)
      modifies this
      ensures C.CStep(Parts(), outcome) == C.InPlaceMul(old(Parts()), other, fl)
      ensures WellFormed(old(Parts())) && other.ComplexArg? && WellFormed(other.c) ==>
        outcome == Done && CanonicalParts(Parts())
        && Value(Parts()) == CMul(Value(old(Parts())), Value(other.c))
      ensures WellFormed(old(Parts())) && other.IntArg? ==>
        outcome == Done && CanonicalParts(Parts())
        && Value(Parts()) == CMul(Value(old(Parts())), CReal(other.i as real, 0.0))
      ensures WellFormed(old(Parts())) && other.RatArg? && other.r.den != 0 ==>
        outcome == Done && CanonicalParts(Parts())
        && Value(Parts()) == CMul(Value(old(Parts())), CReal(R.RealValue(other.r), 0.0))
      ensures other.OtherArg? ==> outcome == Raised(TypeError) && Parts() == old(Parts())
    {
      if WellFormed(Parts()) && !other.FloatArg? && (other.ComplexArg? ==> WellFormed(other.c))
        && (other.RatArg? ==> other.r.den != 0) {
        InPlaceMulIsProduct(Parts(), other, fl);
        if other.IntArg? {
          ProductPartsIsProduct(Parts(), other);
        }
      }
      match other {
      case ComplexArg(o) =>
        var newReal := C.ProductReal(Parts(), o);
        var newImag := if newReal.Ok? then C.ProductImag(Parts(), o) else newReal;
        if newReal.Err? {
          outcome := Raised(newReal.error);
        } else if newImag.Err? {
          outcome := Raised(newImag.error);
        } else {
          realPart := newReal.value;
          imagPart := newImag.value;
          outcome := Done;
        }
      case OtherArg =>
        outcome := Raised(TypeError);
      case _ =>
        var k: Rat;
        match other {
        case IntArg(i) => k := Rat(i, 1);
        case FloatArg(x) => k := fl.fromFloat(x);
        case RatArg(r) => k := r;
        }
        var s := R.InPlaceMul(realPart, RatArg(k));
        realPart := s.state;
        outcome := s.outcome;
        if outcome == Done {
          var t := R.InPlaceMul(imagPart, RatArg(k));
          imagPart := t.state;
          outcome := t.outcome;
        }
      }
    }

    /** `self /= other` (complex.py:221-245). */
    method DivInPlace(other: Operand) returns (outcome: Outcome)
      modifies this
      ensures C.CStep(Parts(), outcome) == C.InPlaceDiv(old(Parts()), other)
      ensures other.ComplexArg? && WellFormed(other.c) && other.c.re.num == 0 && other.c.im.num == 0 ==>
        outcome == Raised(ZeroDivisionError) && Parts() == old(Parts())
      ensures (WellFormed(old(Parts())) && other.ComplexArg? && WellFormed(other.c)
               && (other.c.re.num != 0 || other.c.im.num != 0)) ==>
        outcome == Done && CanonicalParts(Parts())
        && CMul(Value(Parts()), Value(other.c)) == Value(old(Parts()))
      ensures other == IntArg(0) || other == FloatArg(0.0) || (other.RatArg? && other.r.num == 0 && other.r.den != 0) ==>
        outcome == Raised(ValueError) && Parts() == old(Parts())
      ensures WellFormed(old(Parts())) && other.IntArg? && other.i != 0 ==>
        outcome == Done && CanonicalParts(Parts())
        && Value(Parts()) == CReal(Value(old(Parts())).x / other.i as real, Value(old(Parts())).y / other.i as real)
      ensures (other.FloatArg? && other.x != 0.0) || other.OtherArg? ==>
        outcome == Raised(TypeError) && Parts() == old(Parts())
    {
      if other.ComplexArg? && WellFormed(other.c) {
        ZeroValue(other.c.re);
        ZeroValue(other.c.im);
      }
      if other.RatArg? && other.r.den != 0 {
        ZeroValue(other.r);
      }
      if WellFormed(Parts()) && (other.ComplexArg? ==> WellFormed(other.c)) && (other.RatArg? ==> other.r.den != 0) {
        InPlaceDivIsQuotient(Parts(), other);
        if other.ComplexArg? && (other.c.re.num != 0 || other.c.im.num != 0) {
          ComplexQuotientIsQuotient(Parts(), other.c);
        }
      }
      match other {
      case ComplexArg(o) =>
        if R.Eq(o.re, IntArg(0)) == Ok(true) && R.Eq(o.im, IntArg(0)) == Ok(true) {
          outcome := Raised(ZeroDivisionError);
        } else {
          var d := C.SquaredModulus(o);
          if d.Err? {
            outcome := Raised(d.error);
          } else if R.Eq(d.value, IntArg(0)) == Ok(true) {
            outcome := Raised(ValueError);
          } else {
            var newReal := C.QuotientReal(Parts(), o, d.value);
            var newImag := if newReal.Ok? then C.QuotientImag(Parts(), o, d.value) else newReal;
            if newReal.Err? {
              outcome := Raised(newReal.error);
            } else if newImag.Err? {
              outcome := Raised(newImag.error);
            } else {
              realPart := newReal.value;
              imagPart := newImag.value;
              outcome := Done;
            }
          }
        }
      case OtherArg =>
        outcome := Raised(TypeError);
      case FloatArg(x) =>
        if C.ScalarIsZero(other) {
          outcome := Raised(ValueError);
        } else {
          // Rational's `/=` refuses a float, so `self.real /= other` raises
          // before the imaginary part is reached.
          var s := R.InPlaceDiv(realPart, other);
          realPart := s.state;
          outcome := s.outcome;
        }
      case _ =>
        if C.ScalarIsZero(other) {
          outcome := Raised(ValueError);
        } else {
          var s := R.InPlaceDiv(realPart, other);
          realPart := s.state;
          outcome := s.outcome;
          if outcome == Done {
            var t := R.InPlaceDiv(imagPart, other);
            imagPart := t.state;
            outcome := t.outcome;
          }
        }
      }
    }

    /** `self.inverse()` (complex.py:272-281): a new object, or ValueError for
        zero. */
    method Inverse(fl: C.Floats) returns (res: Result<Complex>)
      ensures res.Ok? ==> fresh(res.value) && C.Inverse(Parts(), fl) == Ok(res.value.Parts())
      ensures res.Err? ==> C.Inverse(Parts(), fl) == Err(res.error)
      ensures WellFormed(Parts()) && realPart.num == 0 && imagPart.num == 0 ==> res == Err(ValueError)
      ensures WellFormed(Parts()) && (realPart.num != 0 || imagPart.num != 0) ==>
        res.Ok? && WellFormed(res.value.Parts())
    {
      if WellFormed(Parts()) {
        InverseRounds(Parts(), fl);
      }
      var v := C.Inverse(Parts(), fl);
      if v.Err? {
        res := Err(v.error);
      } else {
        var r := new Complex(v.value);
        res := Ok(r);
      }
    }

    /** One turn of the loop in `__pow__` (complex.py:265-268) with the
        receiver as `base`: `result *= base` when `m` is odd, then
        `base *= base`. */
    method PowTurn(result: Complex, m: nat, fl: C.Floats) returns (outcome: Outcome)
      requires result != this && m > 0
      modifies this, result
      ensures C.SquareAndMultiply(old(result.Parts()), old(Parts()), m, fl)
        == if outcome.Raised? then C.PowRun(result.Parts(), Parts(), outcome)
           else C.SquareAndMultiply(result.Parts(), Parts(), m / 2, fl)
    {
      outcome := Done;
      if m % 2 == 1 {
        outcome := result.MulInPlace(ComplexArg(Parts()), fl);
      }
      if outcome == Done {
        outcome := MulInPlace(ComplexArg(Parts()), fl);
      }
    }

    /** `self ** other` (complex.py:247-270). From exponent 2 on, `base` is
        the receiver itself, so the loop squares the receiver in place while
        `result`, a fresh object, collects the product. */
    method Pow(e: Operand, fl: C.Floats) returns (res: Result<Complex>)
      modifies this
      decreases if e.IntArg? && e.i < 0 then 1 else 0
      ensures C.Power(old(Parts()), e, fl)
        == C.PowEffect(if res.Ok? then Ok(res.value.Parts()) else Err(res.error), Parts())
      ensures e == IntArg(1) ==> res == Ok(this)
      ensures res.Ok? && e != IntArg(1) ==> fresh(res.value)
      ensures WellFormed(old(Parts())) && e.IntArg? && e.i >= 2 ==>
        res.Ok? && WellFormed(res.value.Parts()) && WellFormed(Parts())
        && Value(res.value.Parts()) == CPow(Value(old(Parts())), e.i)
        && Value(Parts()) == CPow(Value(old(Parts())), Runtime.Pow(2, BitLength(e.i)))
    {
      if !e.IntArg? {
        return Err(TypeError);
      }
      var n := e.i;
      if n < 0 {
        var inv := Inverse(fl);
        if inv.Err? {
          return Err(inv.error);
        }
        res := inv.value.Pow(IntArg(-n), fl);
        return;
      } else if n == 0 {
        var one := new Complex(C.One);
        return Ok(one);
      } else if n == 1 {
        return Ok(this);
      }
      ghost var start := Parts();
      if WellFormed(start) {
        LoopResult(start, n, fl);
        LoopReceiver(start, n, fl);
      }
      var result := new Complex(C.One);
      var base := this;
      var m: nat := n;
      while m > 0
        invariant base == this && result != this && fresh(result)
        invariant C.SquareAndMultiply(result.Parts(), Parts(), m, fl) == C.SquareAndMultiply(C.One, start, n, fl)
        decreases m
      {
        var o := PowTurn(result, m, fl);
        if o.Raised? {
          return Err(o.error);
        }
        m := m / 2;
      }
      res := Ok(result);
    }
  }
}
