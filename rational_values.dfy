/** The Rational type of rational.py on values: what `reduce` does to the two
    fields, the non-mutating operators, and the effect of each in-place
    operator on the receiver's fields. The class that holds the fields and
    mutates them is in rational_class.dfy. */
module Rationals {
  import opened Runtime
  import opened Euclid

  /** The number a Rational with a non-zero denominator stands for. */
  ghost function RealValue(r: Rat): real
    requires r.den != 0
  {
    r.num as real / r.den as real
  }

  /** Lowest terms with a positive denominator: the form `reduce` promises. */
  ghost predicate Canonical(r: Rat)
  {
    && r.den > 0
    && forall k :: k > 0 && Divides(k, r.num) && Divides(k, r.den) ==> k == 1
  }

  /** The receiver's fields after a statement that mutates it, and whether the
      statement finished or raised; a raise can leave a field already written. */
  datatype Step = Step(state: Rat, outcome: Outcome)

  /** `r.reduce()` (rational.py:78-107): divide both fields by the gcd through
      the setters, then flip both signs if the denominator is negative. With a
      zero gcd (only 0/0) the first `//` raises before any field is written;
      with a zero denominator and a non-zero numerator the numerator is
      written and the denominator setter then rejects 0. */
  function ReduceStep(r: Rat): Step
  {
    var g := PyGcd(r.num, r.den);
    if g == 0 then Step(r, Raised(ZeroDivisionError))
    else
      var n := PyFloorDiv(r.num, g);
      var d := PyFloorDiv(r.den, g);
      if d == 0 then Step(Rat(n, r.den), Raised(ValueError))
      else if d < 0 then Step(Rat(-n, -d), Done)
      else Step(Rat(n, d), Done)
  }

  /** `reduce` called on a freshly built Rational whose fields are `r`: the
      operators return that object, or propagate what reduce raised. */
  function Reduce(r: Rat): Result<Rat>
  {
    var s := ReduceStep(r);
    if s.outcome.Raised? then Err(s.outcome.error) else Ok(s.state)
  }

  // ---------------------------------------------------------------------
  // Facts about reduce

  /** Two fractions with non-zero denominators stand for the same number
      exactly when their cross products agree. */
  lemma CrossProductsMeanSameValue(a: Rat, b: Rat)
    requires a.den != 0 && b.den != 0
    ensures a.num * b.den == b.num * a.den <==> RealValue(a) == RealValue(b)
  {
    var x, y, u, v := a.num as real, a.den as real, b.num as real, b.den as real;
    assert (a.num * b.den) as real == x * v;
    assert (b.num * a.den) as real == u * y;
    assert RealValue(a) == x / y && RealValue(b) == u / v;
    assert x / y == u / v <==> x * v == u * y;
  }

  /** If `k` divides `x / g`, then `g * k` divides `x`. */
  lemma ScaledDivisor(g: int, k: int, x: int)
    requires g != 0 && k != 0
    requires Divides(g, x) && Divides(k, x / g)
    ensures Divides(g * k, x)
  {
    DividesQuotient(g, x);
    DividesQuotient(k, x / g);
    var m := (x / g) / k;
    assert x == g * (k * m);
    assert x == (g * k) * m;
    MultipleDivisible(g * k, m);
  }

  /** Only a unit multiple of `g` divides `g`. */
  lemma OnlyUnitDivides(g: int, k: int)
    requires g != 0 && k > 0
    requires Divides(g * k, g)
    ensures k == 1
  {
    DividesQuotient(g * k, g);
    var t := g / (g * k);
    assert g * 1 == g * (k * t);
    assert k * t == 1;
    if k > 1 {
      if t > 0 {
        assert false;
      } else {
        assert false;
      }
    }
  }

  /** A common divisor of the two quotients, scaled by the gcd, still divides
      the gcd; so the quotients have no common divisor above 1. */
  lemma QuotientsCoprime(n: int, d: int, k: int)
    requires PyGcd(n, d) != 0
    requires k > 0
    requires Divides(k, n / PyGcd(n, d)) && Divides(k, d / PyGcd(n, d))
    ensures k == 1
  {
    var g := PyGcd(n, d);
    GcdDivides(n, d);
    ScaledDivisor(g, k, n);
    ScaledDivisor(g, k, d);
    GcdGreatest(n, d, g * k);
    OnlyUnitDivides(g, k);
  }

  /** For a non-zero denominator, reduce finishes, keeps the value, leaves the
      denominator positive and the fraction in lowest terms. The sign-flip
      branch (rational.py:105-107) never runs: the gcd already carries the
      denominator's sign. */
  lemma ReduceNormalises(r: Rat)
    requires r.den != 0
    ensures ReduceStep(r).outcome == Done
    ensures Canonical(ReduceStep(r).state)
    ensures RealValue(ReduceStep(r).state) == RealValue(r)
    ensures ReduceStep(r).state.num * r.den == r.num * ReduceStep(r).state.den
    ensures ReduceStep(r).state.den == PyFloorDiv(r.den, PyGcd(r.num, r.den))
  {
    var g := PyGcd(r.num, r.den);
    ReduceDividesByGcd(r);
    var n, d := r.num / g, r.den / g;
    forall k | k > 0 && Divides(k, n) && Divides(k, d)
      ensures k == 1
    {
      QuotientsCoprime(r.num, r.den, k);
    }
    CrossProductsMeanSameValue(Rat(n, d), r);
  }

  /** For a non-zero denominator, `reduce` divides both fields exactly by
      their gcd, and the new denominator is positive. */
  lemma ReduceDividesByGcd(r: Rat)
    requires r.den != 0
    ensures PyGcd(r.num, r.den) != 0
    ensures r.num == PyGcd(r.num, r.den) * (r.num / PyGcd(r.num, r.den))
    ensures r.den == PyGcd(r.num, r.den) * (r.den / PyGcd(r.num, r.den))
    ensures r.den / PyGcd(r.num, r.den) > 0
    ensures (r.num / PyGcd(r.num, r.den)) * r.den == r.num * (r.den / PyGcd(r.num, r.den))
    ensures PyFloorDiv(r.den, PyGcd(r.num, r.den)) == r.den / PyGcd(r.num, r.den)
    ensures ReduceStep(r) == Step(Rat(r.num / PyGcd(r.num, r.den), r.den / PyGcd(r.num, r.den)), Done)
  {
    var g := PyGcd(r.num, r.den);
    GcdSign(r.num, r.den);
    GcdDivides(r.num, r.den);
    DividesQuotient(g, r.num);
    DividesQuotient(g, r.den);
    var n, d := r.num / g, r.den / g;
    assert PyFloorDiv(r.num, g) == n by {
      assert PyMod(r.num, g) == 0;
    }
    assert PyFloorDiv(r.den, g) == d by {
      assert PyMod(r.den, g) == 0;
    }
    assert d > 0;
    CommonFactorCrossProducts(r.num, r.den, g, n, d);
  }

  /** Dividing both fields by a common factor keeps the cross products
      equal. */
  lemma CommonFactorCrossProducts(a: int, b: int, g: int, n: int, d: int)
    requires a == g * n && b == g * d
    ensures n * b == a * d
  {
    calc {
      n * b;
      n * (g * d);
      (g * n) * d;
      a * d;
    }
  }


  /** reduce leaves a fraction that is already in lowest terms as it is. */
  lemma ReduceKeepsCanonical(r: Rat)
    requires Canonical(r)
    ensures ReduceStep(r) == Step(r, Done)
  {
    var g := PyGcd(r.num, r.den);
    GcdSign(r.num, r.den);
    GcdDivides(r.num, r.den);
    assert g == 1;
    assert PyFloorDiv(r.num, 1) == r.num;
    assert PyFloorDiv(r.den, 1) == r.den;
  }

  /** Reducing a second time changes nothing. */
  lemma ReduceIdempotent(r: Rat)
    requires r.den != 0
    ensures ReduceStep(ReduceStep(r).state) == Step(ReduceStep(r).state, Done)
  {
    ReduceNormalises(r);
    ReduceKeepsCanonical(ReduceStep(r).state);
  }

  /** reduce with a zero denominator: 0/0 raises ZeroDivisionError from `//`
      with both fields untouched; n/0 writes the numerator n // n == 1 and the
      denominator setter then raises ValueError. */
  lemma ReduceZeroDenominator(r: Rat)
    requires r.den == 0
    ensures r.num == 0 ==> ReduceStep(r) == Step(r, Raised(ZeroDivisionError))
    ensures r.num != 0 ==> ReduceStep(r) == Step(Rat(1, 0), Raised(ValueError))
  {
    GcdSign(r.num, r.den);
    if r.num != 0 {
      assert PyMod(r.num, r.num) == 0;
      assert PyFloorDiv(r.num, r.num) == 1;
      assert PyMod(0, r.num) == 0;
      assert PyFloorDiv(0, r.num) == 0;
    }
  }

  // ---------------------------------------------------------------------
  // The non-mutating operators. A Rational right operand is cross-multiplied
  // and the fresh result reduced; an int right operand is dispatched to its own
  // formula; anything else raises TypeError.

  /** `a + other` (rational.py:110-126): the int case is not reduced. */
  function Add(a: Rat, other: Operand): Result<Rat>
  {
    match other
    case RatArg(b) => Reduce(Rat(a.num * b.den + a.den * b.num, a.den * b.den))
    case IntArg(k) => Ok(Rat(a.num + k * a.den, a.den))
    case _ => Err(TypeError)
  }

  /** `a - other` (rational.py:129-145): the int case is not reduced. */
  function Sub(a: Rat, other: Operand): Result<Rat>
  {
    match other
    case RatArg(b) => Reduce(Rat(a.num * b.den - a.den * b.num, a.den * b.den))
    case IntArg(k) => Ok(Rat(a.num - k * a.den, a.den))
    case _ => Err(TypeError)
  }

  /** `a * other` (rational.py:148-179): both cases are reduced. */
  function Mul(a: Rat, other: Operand): Result<Rat>
  {
    match other
    case RatArg(b) => Reduce(Rat(a.num * b.num, a.den * b.den))
    case IntArg(k) => Reduce(Rat(a.num * k, a.den))
    case _ => Err(TypeError)
  }

  /** `a / other` (rational.py:182-200): a zero divisor raises
      ZeroDivisionError; the int case is not reduced. */
  function Div(a: Rat, other: Operand): Result<Rat>
  {
    match other
    case RatArg(b) =>
      if b.num == 0 then Err(ZeroDivisionError)
      else Reduce(Rat(a.num * b.den, a.den * b.num))
    case IntArg(k) =>
      if k == 0 then Err(ZeroDivisionError)
      else Ok(Rat(a.num, a.den * k))
    case _ => Err(TypeError)
  }

  /** `a == other` (rational.py:203-215): cross-multiplication. */
  function Eq(a: Rat, other: Operand): Result<bool>
  {
    match other
    case RatArg(b) => Ok(a.num * b.den == a.den * b.num)
    case IntArg(k) => Ok(a.num == k * a.den)
    case _ => Err(TypeError)
  }

  /** `a != other` (rational.py:218-227): checks the operand type itself,
      then negates `==`. */
  function Ne(a: Rat, other: Operand): (r: Result<bool>)
    ensures Eq(a, other).Ok? ==> r == Ok(!Eq(a, other).value)
    ensures Eq(a, other).Err? ==> r == Err(TypeError)
  {
    if !(other.RatArg? || other.IntArg?) then Err(TypeError)
    else
      var e :- Eq(a, other);
      Ok(!e)
  }

  /** `-a` (rational.py:325-331). */
  function Neg(a: Rat): Rat
  {
    Rat(-a.num, a.den)
  }

  /** `abs(a)` (rational.py:349-355). */
  function AbsValue(a: Rat): Rat
  {
    Rat(Abs(a.num), Abs(a.den))
  }

  /** `a ** e` for e >= 0 (rational.py:343-346): both fields raised, not
      reduced; `a ** 0` is 1/1. */
  function Power(a: Rat, e: nat): Rat
  {
    if e > 0 then Rat(Pow(a.num, e), Pow(a.den, e)) else Rat(1, 1)
  }

  // ---------------------------------------------------------------------
  // The in-place operators, as their effect on the receiver's fields. Each
  // computes the new fields from the old ones first, so `r op= r` behaves
  // like `r op= copy-of-r`. Writing the numerator never fails; writing a zero
  // denominator raises ValueError after the numerator has been written.

  /** Write the numerator, then the denominator through its setter, then
      reduce: the Rational branch shared by `+=`, `-=`, `*=` and `/=`. */
  function WriteAndReduce(a: Rat, n: int, d: int): Step
  {
    if d == 0 then Step(Rat(n, a.den), Raised(ValueError))
    else ReduceStep(Rat(n, d))
  }

  /** `a += other` (rational.py:230-249): the int case writes only the
      numerator and does not reduce. */
  function InPlaceAdd(a: Rat, other: Operand): Step
  {
    match other
    case RatArg(b) => WriteAndReduce(a, a.num * b.den + b.num * a.den, a.den * b.den)
    case IntArg(k) => Step(Rat(a.num + k * a.den, a.den), Done)
    case _ => Step(a, Raised(TypeError))
  }

  /** `a -= other` (rational.py:252-272): the int case writes the numerator
      and reduces. */
  function InPlaceSub(a: Rat, other: Operand): Step
  {
    match other
    case RatArg(b) => WriteAndReduce(a, a.num * b.den - a.den * b.num, a.den * b.den)
    case IntArg(k) => ReduceStep(Rat(a.num - k * a.den, a.den))
    case _ => Step(a, Raised(TypeError))
  }

  /** `a *= other` (rational.py:275-295): the int case writes the numerator
      and reduces. */
  function InPlaceMul(a: Rat, other: Operand): Step
  {
    match other
    case RatArg(b) => WriteAndReduce(a, a.num * b.num, a.den * b.den)
    case IntArg(k) => ReduceStep(Rat(a.num * k, a.den))
    case _ => Step(a, Raised(TypeError))
  }

  /** `a /= other` (rational.py:298-322): a zero Rational raises
      ZeroDivisionError, a zero int raises ValueError; the int case writes
      the denominator through its setter and reduces. */
  function InPlaceDiv(a: Rat, other: Operand): Step
  {
    match other
    case RatArg(b) =>
      if b.num == 0 then Step(a, Raised(ZeroDivisionError))
      else WriteAndReduce(a, a.num * b.den, a.den * b.num)
    case IntArg(k) =>
      if k == 0 then Step(a, Raised(ValueError))
      else if a.den * k == 0 then Step(a, Raised(ValueError))
      else ReduceStep(Rat(a.num, a.den * k))
    case _ => Step(a, Raised(TypeError))
  }
}
