/** The Complex type of complex.py on values: its constructors, the
    non-mutating operators, equality, inverse, and the effect of each in-place
    operator on the receiver's two components. Every operator goes through
    the Rational operators of module Rationals. Components are values: a
    Rational shared between two Complex objects is not modelled. */
module Complexes {
  import opened Runtime
  import R = Rationals

  /** The two float conversions the constructor depends on, which this model
      does not define: `float(r)` of a Rational with a non-zero denominator
      (rational.py:369-377) and `Rational.from_float` (rational.py:379-388). */
  datatype Floats = Floats(toFloat: Rat -> real, fromFloat: real -> Fraction)

  /** What `Rational.from_float` returns: the fields of a normalised
      `Fraction`, whose denominator is positive. */
  type Fraction = r: Rat | r.den > 0 witness Rat(0, 1)

  /** `Complex(1, 0)`. */
  const One: Cpx := Cpx(Rat(1, 1), Rat(0, 1))

  /** One argument of the two-argument constructor (complex.py:27-28): an int
      becomes k/1, anything else goes through `Rational.from_float(float(x))`.
      `float` of a Rational divides its fields, so a zero denominator raises
      ZeroDivisionError; `float` of a Complex or another object raises
      TypeError. */
  function Component(x: Operand, fl: Floats): Result<Rat>
  {
    match x
    case IntArg(k) => Ok(Rat(k, 1))
    case FloatArg(v) => Ok(fl.fromFloat(v))
    case RatArg(r) => if r.den == 0 then Err(ZeroDivisionError) else Ok(fl.fromFloat(fl.toFloat(r)))
    case _ => Err(TypeError)
  }

  /** `Complex(x)` (complex.py:17-25): the imaginary part is 0/1. */
  function ConstructOne(x: Operand, fl: Floats): Result<Cpx>
  {
    match x
    case IntArg(k) => Ok(Cpx(Rat(k, 1), Rat(0, 1)))
    case FloatArg(v) => Ok(Cpx(fl.fromFloat(v), Rat(0, 1)))
    case RatArg(r) => Ok(Cpx(r, Rat(0, 1)))
    case _ => Err(TypeError)
  }

  /** `Complex(x, y)` (complex.py:26-28). */
  function ConstructTwo(x: Operand, y: Operand, fl: Floats): Result<Cpx>
  {
    var re :- Component(x, fl);
    var im :- Component(y, fl);
    Ok(Cpx(re, im))
  }

  /** The non-mutating operators hand their exact Rational components to the
      two-argument constructor, which approximates each one through a float. */
  function Rebuild(p: Cpx, fl: Floats): Result<Cpx>
  {
    ConstructTwo(RatArg(p.re), RatArg(p.im), fl)
  }

  // ---------------------------------------------------------------------
  // The exact components each non-mutating operator computes

  /** The components `self + other` computes (complex.py:80-85): a scalar is
      added to the real part only; a float reaches `Rational + float`, which
      raises TypeError. */
  function SumParts(c: Cpx, other: Operand): Result<Cpx>
  {
    match other
    case ComplexArg(o) =>
      var re :- R.Add(c.re, RatArg(o.re));
      var im :- R.Add(c.im, RatArg(o.im));
      Ok(Cpx(re, im))
    case FloatArg(_) => Err(TypeError)
    case OtherArg => Err(TypeError)
    case _ =>
      var re :- R.Add(c.re, other);
      Ok(Cpx(re, c.im))
  }

  /** The components `self - other` computes (complex.py:94-99). */
  function DifferenceParts(c: Cpx, other: Operand): Result<Cpx>
  {
    match other
    case ComplexArg(o) =>
      var re :- R.Sub(c.re, RatArg(o.re));
      var im :- R.Sub(c.im, RatArg(o.im));
      Ok(Cpx(re, im))
    case FloatArg(_) => Err(TypeError)
    case OtherArg => Err(TypeError)
    case _ =>
      var re :- R.Sub(c.re, other);
      Ok(Cpx(re, c.im))
  }

  /** `ac - bd` on Rationals, for `c = a + bi` and `o = p + qi`
      (complex.py:110 and 208). */
  function ProductReal(c: Cpx, o: Cpx): Result<Rat>
  {
    var ac :- R.Mul(c.re, RatArg(o.re));
    var bd :- R.Mul(c.im, RatArg(o.im));
    R.Sub(ac, RatArg(bd))
  }

  /** `ad + bc` on Rationals (complex.py:111 and 209). */
  function ProductImag(c: Cpx, o: Cpx): Result<Rat>
  {
    var ad :- R.Mul(c.re, RatArg(o.im));
    var bc :- R.Mul(c.im, RatArg(o.re));
    R.Add(ad, RatArg(bc))
  }

  /** The real part, then the imaginary part, of the product. */
  function ComplexProduct(c: Cpx, o: Cpx): Result<Cpx>
  {
    var re :- ProductReal(c, o);
    var im :- ProductImag(c, o);
    Ok(Cpx(re, im))
  }

  /** The components `self * other` computes (complex.py:108-121). An int
      scales both parts. A float reaches `Rational * float`, which raises
      TypeError; so does a Rational, which is first turned into the float
      `float(n) / float(d)` (ZeroDivisionError when d is 0). */
  function ProductParts(c: Cpx, other: Operand): Result<Cpx>
  {
    match other
    case ComplexArg(o) => ComplexProduct(c, o)
    case IntArg(_) =>
      var re :- R.Mul(c.re, other);
      var im :- R.Mul(c.im, other);
      Ok(Cpx(re, im))
    case FloatArg(_) => Err(TypeError)
    case RatArg(r) => if r.den == 0 then Err(ZeroDivisionError) else Err(TypeError)
    case OtherArg => Err(TypeError)
  }

  /** `other.real ** 2 + other.imag ** 2` (complex.py:131 and 231). */
  function SquaredModulus(o: Cpx): Result<Rat>
  {
    R.Add(R.Power(o.re, 2), RatArg(R.Power(o.im, 2)))
  }

  /** `ac + bd` on Rationals (complex.py:134 and 234). */
  function DotProduct(c: Cpx, o: Cpx): Result<Rat>
  {
    var ac :- R.Mul(c.re, RatArg(o.re));
    var bd :- R.Mul(c.im, RatArg(o.im));
    R.Add(ac, RatArg(bd))
  }

  /** `bc - ad` on Rationals (complex.py:135 and 235). */
  function CrossProduct(c: Cpx, o: Cpx): Result<Rat>
  {
    var bc :- R.Mul(c.im, RatArg(o.re));
    var ad :- R.Mul(c.re, RatArg(o.im));
    R.Sub(bc, RatArg(ad))
  }

  /** `(ac + bd) / D` (complex.py:134 and 234). */
  function QuotientReal(c: Cpx, o: Cpx, d: Rat): Result<Rat>
  {
    var s :- DotProduct(c, o);
    R.Div(s, RatArg(d))
  }

  /** `(bc - ad) / D` (complex.py:135 and 235). */
  function QuotientImag(c: Cpx, o: Cpx, d: Rat): Result<Rat>
  {
    var t :- CrossProduct(c, o);
    R.Div(t, RatArg(d))
  }

  /** The real part, then the imaginary part, of the quotient by `o` whose
      squared modulus is `d`. */
  function ComplexQuotient(c: Cpx, o: Cpx, d: Rat): Result<Cpx>
  {
    var re :- QuotientReal(c, o, d);
    var im :- QuotientImag(c, o, d);
    Ok(Cpx(re, im))
  }

  /** `other == 0` for a scalar right operand (complex.py:138 and 239). */
  function ScalarIsZero(other: Operand): bool
    requires other.IntArg? || other.FloatArg? || other.RatArg?
  {
    match other
    case IntArg(k) => k == 0
    case FloatArg(x) => x == 0.0
    case RatArg(r) => R.Eq(r, IntArg(0)) == Ok(true)
  }

  /** The components `self / other` computes (complex.py:130-142): a zero
      divisor raises ZeroDivisionError, Complex or scalar. A float divisor
      that is not zero reaches `Rational / float`, which raises TypeError. */
  function QuotientParts(c: Cpx, other: Operand): Result<Cpx>
  {
    match other
    case ComplexArg(o) =>
      var d :- SquaredModulus(o);
      var zero :- R.Eq(d, IntArg(0));
      if zero then Err(ZeroDivisionError) else ComplexQuotient(c, o, d)
    case FloatArg(x) => if x == 0.0 then Err(ZeroDivisionError) else Err(TypeError)
    case OtherArg => Err(TypeError)
    case _ =>
      if ScalarIsZero(other) then Err(ZeroDivisionError)
      else
        var re :- R.Div(c.re, other);
        var im :- R.Div(c.im, other);
        Ok(Cpx(re, im))
  }

  /** `self.real * self.real + self.imag * self.imag` (complex.py:278). */
  function SelfModulus(c: Cpx): Result<Rat>
  {
    var rr :- R.Mul(c.re, RatArg(c.re));
    var ii :- R.Mul(c.im, RatArg(c.im));
    R.Add(rr, RatArg(ii))
  }

  /** The components `inverse()` computes (complex.py:278-281): a zero
      number raises ValueError. */
  function InverseParts(c: Cpx): Result<Cpx>
  {
    var d :- SelfModulus(c);
    var zero :- R.Eq(d, IntArg(0));
    if zero then Err(ValueError)
    else
      var re :- R.Div(c.re, RatArg(d));
      var im :- R.Div(R.Neg(c.im), RatArg(d));
      Ok(Cpx(re, im))
  }

  /** The components `-self` computes (complex.py:289). */
  function NegationParts(c: Cpx): Cpx
  {
    Cpx(R.Neg(c.re), R.Neg(c.im))
  }

  // ---------------------------------------------------------------------
  // The non-mutating operators: exact components, then the constructor

  /** `self + other` (complex.py:73-85). */
  function Add(c: Cpx, other: Operand, fl: Floats): Result<Cpx>
  {
    var p :- SumParts(c, other);
    Rebuild(p, fl)
  }

  /** `self - other` (complex.py:87-99). */
  function Sub(c: Cpx, other: Operand, fl: Floats): Result<Cpx>
  {
    var p :- DifferenceParts(c, other);
    Rebuild(p, fl)
  }

  /** `self * other` (complex.py:101-121). */
  function Mul(c: Cpx, other: Operand, fl: Floats): Result<Cpx>
  {
    var p :- ProductParts(c, other);
    Rebuild(p, fl)
  }

  /** `self / other` (complex.py:123-142). */
  function Div(c: Cpx, other: Operand, fl: Floats): Result<Cpx>
  {
    var p :- QuotientParts(c, other);
    Rebuild(p, fl)
  }

  /** `self.inverse()` (complex.py:272-281). */
  function Inverse(c: Cpx, fl: Floats): Result<Cpx>
  {
    var p :- InverseParts(c);
    Rebuild(p, fl)
  }

  /** `-self` (complex.py:283-289). */
  function Neg(c: Cpx, fl: Floats): Result<Cpx>
  {
    Rebuild(NegationParts(c), fl)
  }

  /** `self == other` (complex.py:145-157): componentwise Rational equality;
      a scalar equals the number when it equals the real part and the
      imaginary part equals 0/1. A float reaches `Rational == float`, which
      raises TypeError. */
  function Eq(c: Cpx, other: Operand): Result<bool>
  {
    match other
    case ComplexArg(o) =>
      var same :- R.Eq(c.re, RatArg(o.re));
      if !same then Ok(false) else R.Eq(c.im, RatArg(o.im))
    case FloatArg(_) => Err(TypeError)
    case OtherArg => Err(TypeError)
    case _ =>
      var same :- R.Eq(c.re, other);
      if !same then Ok(false) else R.Eq(c.im, RatArg(Rat(0, 1)))
  }

  /** `self != other` (complex.py:159-166). */
  function Ne(c: Cpx, other: Operand): (r: Result<bool>)
    ensures Eq(c, other).Ok? ==> r == Ok(!Eq(c, other).value)
    ensures Eq(c, other).Err? ==> r == Err(Eq(c, other).error)
  {
    var e :- Eq(c, other);
    Ok(!e)
  }

  // ---------------------------------------------------------------------
  // The in-place operators, as their effect on the receiver's components

  /** The receiver's components after an in-place operator, and how it
      ended. */
  datatype CStep = CStep(state: Cpx, outcome: Outcome)

  /** Apply a Rational in-place step to the real part, then (if that did not
      raise) to the imaginary part; a raise keeps what was already written. */
  function BothParts(c: Cpx, first: R.Step, second: Rat -> R.Step): CStep
  {
    if first.outcome.Raised? then CStep(Cpx(first.state, c.im), first.outcome)
    else
      var s := second(c.im);
      CStep(Cpx(first.state, s.state), s.outcome)
  }

  /** `self += other` (complex.py:168-182): a Complex adds each component in
      place; a scalar adds to `real` in place and leaves `imag` untouched. */
  function InPlaceAdd(c: Cpx, other: Operand): CStep
  {
    match other
    case ComplexArg(o) =>
      BothParts(c, R.InPlaceAdd(c.re, RatArg(o.re)), (im: Rat) => R.InPlaceAdd(im, RatArg(o.im)))
    case OtherArg => CStep(c, Raised(TypeError))
    case _ =>
      var s := R.InPlaceAdd(c.re, other);
      CStep(Cpx(s.state, c.im), s.outcome)
  }

  /** `self -= other` (complex.py:184-198). */
  function InPlaceSub(c: Cpx, other: Operand): CStep
  {
    match other
    case ComplexArg(o) =>
      BothParts(c, R.InPlaceSub(c.re, RatArg(o.re)), (im: Rat) => R.InPlaceSub(im, RatArg(o.im)))
    case OtherArg => CStep(c, Raised(TypeError))
    case _ =>
      var s := R.InPlaceSub(c.re, other);
      CStep(Cpx(s.state, c.im), s.outcome)
  }

  /** `self *= other` (complex.py:200-219): a Complex computes both new
      components from the old ones before writing either; an int or float is
      first made a Rational (k/1, or through from_float), and then both
      components are multiplied in place. */
  function InPlaceMul(c: Cpx, other: Operand, fl: Floats): CStep
  {
    match other
    case ComplexArg(o) =>
      var p := ComplexProduct(c, o);
      if p.Err? then CStep(c, Raised(p.error)) else CStep(p.value, Done)
    case OtherArg => CStep(c, Raised(TypeError))
    case _ =>
      var k := match other
        case IntArg(i) => Rat(i, 1)
        case FloatArg(x) => fl.fromFloat(x)
        case RatArg(r) => r;
      BothParts(c, R.InPlaceMul(c.re, RatArg(k)), (im: Rat) => R.InPlaceMul(im, RatArg(k)))
  }

  /** `self /= other` (complex.py:221-245): a Complex whose parts both equal 0
      raises ZeroDivisionError; a zero squared modulus would raise ValueError;
      otherwise both new components are computed before either is written.
      A zero scalar raises ValueError; any other scalar divides each
      component in place. */
  function InPlaceDiv(c: Cpx, other: Operand): CStep
  {
    match other
    case ComplexArg(o) =>
      if R.Eq(o.re, IntArg(0)) == Ok(true) && R.Eq(o.im, IntArg(0)) == Ok(true) then
        CStep(c, Raised(ZeroDivisionError))
      else
        var d := SquaredModulus(o);
        if d.Err? then CStep(c, Raised(d.error))
        else if R.Eq(d.value, IntArg(0)) == Ok(true) then CStep(c, Raised(ValueError))
        else
          var q := ComplexQuotient(c, o, d.value);
          if q.Err? then CStep(c, Raised(q.error)) else CStep(q.value, Done)
    case OtherArg => CStep(c, Raised(TypeError))
    case _ =>
      if ScalarIsZero(other) then CStep(c, Raised(ValueError))
      else BothParts(c, R.InPlaceDiv(c.re, other), (im: Rat) => R.InPlaceDiv(im, other))
  }

  // ---------------------------------------------------------------------
  // Integer powers

  /** The variables of the loop in `__pow__` (complex.py:263-269): the
      accumulated `result`, the components of `base`, which is the receiver
      itself, and how the loop ended. */
  datatype PowRun = PowRun(result: Cpx, base: Cpx, outcome: Outcome)

  /** `while m > 0: if m % 2 == 1: result *= base; base *= base; m //= 2`,
      started from `result` and `base`. A raise leaves what was written so
      far. */
  function SquareAndMultiply(result: Cpx, base: Cpx, m: nat, fl: Floats): PowRun
    decreases m
  {
    if m == 0 then PowRun(result, base, Done)
    else
      var r := if m % 2 == 1 then InPlaceMul(result, ComplexArg(base), fl) else CStep(result, Done);
      if r.outcome.Raised? then PowRun(r.state, base, r.outcome)
      else
        var b := InPlaceMul(base, ComplexArg(base), fl);
        if b.outcome.Raised? then PowRun(r.state, b.state, b.outcome)
        else SquareAndMultiply(r.state, b.state, m / 2, fl)
  }

  /** What `c ** e` returns, and the receiver's components afterwards. */
  datatype PowEffect = PowEffect(result: Result<Cpx>, receiver: Cpx)

  /** `self ** other` (complex.py:247-270). A non-int exponent raises
      TypeError. A negative one raises `inverse()` to the opposite power,
      which squares the inverse, not the receiver. 0 gives `Complex(1, 0)`
      and 1 the receiver itself; from 2 on the loop runs on the receiver. */
  function Power(c: Cpx, e: Operand, fl: Floats): PowEffect
    decreases if e.IntArg? && e.i < 0 then 1 else 0
  {
    match e
    case IntArg(n) =>
      if n < 0 then
        var inv := Inverse(c, fl);
        if inv.Err? then PowEffect(Err(inv.error), c)
        else PowEffect(Power(inv.value, IntArg(-n), fl).result, c)
      else if n == 0 then PowEffect(Ok(One), c)
      else if n == 1 then PowEffect(Ok(c), c)
      else
        var run := SquareAndMultiply(One, c, n, fl);
        if run.outcome.Raised? then PowEffect(Err(run.outcome.error), run.base)
        else PowEffect(Ok(run.result), run.base)
    case _ => PowEffect(Err(TypeError), c)
  }
}
