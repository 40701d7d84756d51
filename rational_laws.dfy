/** What the Rational operators of rational.py compute, stated against the
    numbers the fractions stand for. */
module RationalLaws {
  import opened Runtime
  import opened Euclid
  import opened Rationals

  // ---------------------------------------------------------------------
  // Field arithmetic behind the cross-multiplication formulas

  lemma SumFormula(a: Rat, b: Rat)
    requires a.den != 0 && b.den != 0
    ensures a.den * b.den != 0
    ensures RealValue(Rat(a.num * b.den + a.den * b.num, a.den * b.den))
         == RealValue(a) + RealValue(b)
  {
    var x, y, u, v := a.num as real, a.den as real, b.num as real, b.den as real;
    assert (a.num * b.den + a.den * b.num) as real == x * v + y * u;
    assert (a.den * b.den) as real == y * v;
    assert (x * v + y * u) / (y * v) == x / y + u / v;
  }

  lemma DifferenceFormula(a: Rat, b: Rat)
    requires a.den != 0 && b.den != 0
    ensures a.den * b.den != 0
    ensures RealValue(Rat(a.num * b.den - a.den * b.num, a.den * b.den))
         == RealValue(a) - RealValue(b)
  {
    var x, y, u, v := a.num as real, a.den as real, b.num as real, b.den as real;
    assert (a.num * b.den - a.den * b.num) as real == x * v - y * u;
    assert (a.den * b.den) as real == y * v;
    assert (x * v - y * u) / (y * v) == x / y - u / v;
  }

  lemma ProductFormula(a: Rat, b: Rat)
    requires a.den != 0 && b.den != 0
    ensures a.den * b.den != 0
    ensures RealValue(Rat(a.num * b.num, a.den * b.den)) == RealValue(a) * RealValue(b)
  {
    var x, y, u, v := a.num as real, a.den as real, b.num as real, b.den as real;
    assert (a.num * b.num) as real == x * u;
    assert (a.den * b.den) as real == y * v;
    assert (x * u) / (y * v) == (x / y) * (u / v);
  }

  lemma QuotientFormula(a: Rat, b: Rat)
    requires a.den != 0 && b.den != 0 && b.num != 0
    ensures a.den * b.num != 0
    ensures RealValue(b) != 0.0
    ensures RealValue(Rat(a.num * b.den, a.den * b.num)) == RealValue(a) / RealValue(b)
  {
    var x, y, u, v := a.num as real, a.den as real, b.num as real, b.den as real;
    assert (a.num * b.den) as real == x * v;
    assert (a.den * b.num) as real == y * u;
    assert (x * v) / (y * u) == (x / y) / (u / v);
  }

  // ---------------------------------------------------------------------
  // reduce on a fresh object

  /** A freshly built Rational that is reduced comes back in lowest terms
      with the same value when its denominator is non-zero; otherwise reduce
      raises ZeroDivisionError for 0/0 and ValueError for n/0. */
  lemma FreshReduce(r: Rat)
    ensures r.den != 0 ==> (
      Reduce(r).Ok? && Canonical(Reduce(r).value)
      && RealValue(Reduce(r).value) == RealValue(r))
    ensures r.den == 0 && r.num == 0 ==> Reduce(r) == Err(ZeroDivisionError)
    ensures r.den == 0 && r.num != 0 ==> Reduce(r) == Err(ValueError)
  {
    if r.den != 0 {
      ReduceNormalises(r);
    } else {
      ReduceZeroDenominator(r);
    }
  }

  // ---------------------------------------------------------------------
  // The non-mutating operators

  /** Rational + Rational is the reduced sum; Rational + int is the exact
      sum over the unchanged denominator, not reduced. */
  lemma AddIsSum(a: Rat, other: Operand)
    requires a.den != 0
    requires other.RatArg? ==> other.r.den != 0
    ensures other.RatArg? ==> (
      Add(a, other).Ok? && Canonical(Add(a, other).value)
      && RealValue(Add(a, other).value) == RealValue(a) + RealValue(other.r))
    ensures other.IntArg? ==> (
      Add(a, other).Ok? && Add(a, other).value.den == a.den
      && RealValue(Add(a, other).value) == RealValue(a) + other.i as real)
    ensures !other.RatArg? && !other.IntArg? ==> Add(a, other) == Err(TypeError)
  {
    match other
    case RatArg(b) =>
      SumFormula(a, b);
      FreshReduce(Rat(a.num * b.den + a.den * b.num, a.den * b.den));
    case IntArg(k) =>
      SumFormula(a, Rat(k, 1));
    case _ =>
  }

  /** Rational - Rational is the reduced difference; Rational - int is the
      exact difference over the unchanged denominator, not reduced. */
  lemma SubIsDifference(a: Rat, other: Operand)
    requires a.den != 0
    requires other.RatArg? ==> other.r.den != 0
    ensures other.RatArg? ==> (
      Sub(a, other).Ok? && Canonical(Sub(a, other).value)
      && RealValue(Sub(a, other).value) == RealValue(a) - RealValue(other.r))
    ensures other.IntArg? ==> (
      Sub(a, other).Ok? && Sub(a, other).value.den == a.den
      && RealValue(Sub(a, other).value) == RealValue(a) - other.i as real)
    ensures !other.RatArg? && !other.IntArg? ==> Sub(a, other) == Err(TypeError)
  {
    match other
    case RatArg(b) =>
      DifferenceFormula(a, b);
      FreshReduce(Rat(a.num * b.den - a.den * b.num, a.den * b.den));
    case IntArg(k) =>
      DifferenceFormula(a, Rat(k, 1));
    case _ =>
  }

  /** Rational * Rational and Rational * int are both the reduced product. */
  lemma MulIsProduct(a: Rat, other: Operand)
    requires a.den != 0
    requires other.RatArg? ==> other.r.den != 0
    ensures other.RatArg? ==> (
      Mul(a, other).Ok? && Canonical(Mul(a, other).value)
      && RealValue(Mul(a, other).value) == RealValue(a) * RealValue(other.r))
    ensures other.IntArg? ==> (
      Mul(a, other).Ok? && Canonical(Mul(a, other).value)
      && RealValue(Mul(a, other).value) == RealValue(a) * other.i as real)
    ensures !other.RatArg? && !other.IntArg? ==> Mul(a, other) == Err(TypeError)
  {
    match other
    case RatArg(b) =>
      ProductFormula(a, b);
      FreshReduce(Rat(a.num * b.num, a.den * b.den));
    case IntArg(k) =>
      ProductFormula(a, Rat(k, 1));
      FreshReduce(Rat(a.num * k, a.den));
    case _ =>
  }

  /** Division by a zero Rational or by int 0 raises ZeroDivisionError,
      whatever the dividend; otherwise Rational / Rational is the reduced
      quotient and Rational / int is the exact quotient over `den * k`,
      not reduced. */
  lemma DivIsQuotient(a: Rat, other: Operand)
    ensures other.RatArg? && other.r.num == 0 ==> Div(a, other) == Err(ZeroDivisionError)
    ensures other == IntArg(0) ==> Div(a, other) == Err(ZeroDivisionError)
    ensures a.den != 0 && other.RatArg? && other.r.num != 0 && other.r.den != 0 ==> (
      Div(a, other).Ok? && Canonical(Div(a, other).value)
      && RealValue(Div(a, other).value) == RealValue(a) / RealValue(other.r))
    ensures a.den != 0 && other.IntArg? && other.i != 0 ==> (
      Div(a, other).Ok? && Div(a, other).value.num == a.num
      && Div(a, other).value.den == a.den * other.i
      && RealValue(Div(a, other).value) == RealValue(a) / other.i as real)
    ensures !other.RatArg? && !other.IntArg? ==> Div(a, other) == Err(TypeError)
  {
    match other
    case RatArg(b) =>
      if a.den != 0 && b.num != 0 && b.den != 0 {
        QuotientFormula(a, b);
        FreshReduce(Rat(a.num * b.den, a.den * b.num));
      }
    case IntArg(k) =>
      if a.den != 0 && k != 0 {
        QuotientFormula(a, Rat(k, 1));
      }
    case _ =>
  }

  /** `==` is equality of the numbers, reduced or not, for Rational and int
      right operands; any other operand raises TypeError. `!=` is its
      negation with the same TypeError. */
  lemma EqIsValueEquality(a: Rat, other: Operand)
    requires a.den != 0
    requires other.RatArg? ==> other.r.den != 0
    ensures other.RatArg? ==> Eq(a, other) == Ok(RealValue(a) == RealValue(other.r))
    ensures other.IntArg? ==> Eq(a, other) == Ok(RealValue(a) == other.i as real)
    ensures !other.RatArg? && !other.IntArg? ==> Eq(a, other) == Err(TypeError)
    ensures !other.RatArg? && !other.IntArg? ==> Ne(a, other) == Err(TypeError)
    ensures other.RatArg? ==> Ne(a, other) == Ok(RealValue(a) != RealValue(other.r))
    ensures other.IntArg? ==> Ne(a, other) == Ok(RealValue(a) != other.i as real)
  {
    match other
    case RatArg(b) =>
      CrossProductsMeanSameValue(a, b);
    case IntArg(k) =>
      CrossProductsMeanSameValue(a, Rat(k, 1));
    case _ =>
  }

  /** Negation keeps the denominator and negates the number; it keeps lowest
      terms and undoes itself. */
  lemma NegNegates(a: Rat)
    ensures Neg(a).den == a.den && Neg(Neg(a)) == a
    ensures a.den != 0 ==> RealValue(Neg(a)) == -RealValue(a)
    ensures Canonical(a) ==> Canonical(Neg(a))
  {
    if Canonical(a) {
      forall k | k > 0 && Divides(k, -a.num) && Divides(k, a.den)
        ensures k == 1
      {
        DividesCombination(k, -a.num, 0, -1, 0);
      }
    }
  }

  /** abs takes the absolute value of each field, so of the number. */
  lemma AbsIsMagnitude(a: Rat)
    ensures AbsValue(a).num >= 0 && AbsValue(a).den >= 0
    ensures a.den != 0 ==> (
      AbsValue(a).den != 0 &&
      RealValue(AbsValue(a)) == (if RealValue(a) < 0.0 then -RealValue(a) else RealValue(a)))
    ensures AbsValue(AbsValue(a)) == AbsValue(a)
  {
    if a.den != 0 {
      var x, y := a.num as real, a.den as real;
      assert RealValue(a) == x / y;
      assert RealValue(AbsValue(a)) == (if x < 0.0 then -x else x) / (if y < 0.0 then -y else y);
    }
  }

  /** The real number `x` raised to `e`. */
  ghost function RealPow(x: real, e: nat): real
  {
    if e == 0 then 1.0 else x * RealPow(x, e - 1)
  }

  lemma {:induction false} PowNonZero(b: int, e: nat)
    requires b != 0
    ensures Pow(b, e) != 0
  {
    if e > 0 {
      PowNonZero(b, e - 1);
    }
  }

  /** `a ** e` for e >= 0 raises the number to the e-th power, with a
      non-zero denominator whenever `a` has one. */
  lemma {:induction false} PowerIsPower(a: Rat, e: nat)
    requires a.den != 0
    ensures Power(a, e).den != 0
    ensures RealValue(Power(a, e)) == RealPow(RealValue(a), e)
  {
    if e == 1 {
      assert Pow(a.num, 1) == a.num * Pow(a.num, 0) == a.num;
      assert Pow(a.den, 1) == a.den * Pow(a.den, 0) == a.den;
      assert Power(a, 1) == a;
    } else if e > 1 {
      var p := Power(a, e - 1);
      PowNonZero(a.den, e - 1);
      PowerIsPower(a, e - 1);
      assert p == Rat(Pow(a.num, e - 1), Pow(a.den, e - 1));
      assert Power(a, e) == Rat(a.num * p.num, a.den * p.den);
      ProductFormula(a, p);
      assert RealPow(RealValue(a), e) == RealValue(a) * RealPow(RealValue(a), e - 1);
    }
  }

  // ---------------------------------------------------------------------
  // The in-place operators against the non-mutating ones

  /** `+=` computes what `+` computes: with a Rational right operand the
      reduced sum, or, when a denominator is zero, ValueError from the
      denominator setter after the numerator was written; with an int only
      the numerator changes, exactly as `+` builds it, unreduced. */
  lemma InPlaceAddAgrees(a: Rat, other: Operand)
    ensures other.RatArg? && a.den != 0 && other.r.den != 0 ==>
      Add(a, other).Ok? && InPlaceAdd(a, other) == Step(Add(a, other).value, Done)
    ensures other.RatArg? && a.den * other.r.den == 0 ==>
      InPlaceAdd(a, other)
        == Step(Rat(a.num * other.r.den + other.r.num * a.den, a.den), Raised(ValueError))
    ensures other.IntArg? ==> Add(a, other).Ok? && InPlaceAdd(a, other) == Step(Add(a, other).value, Done)
    ensures !other.RatArg? && !other.IntArg? ==> InPlaceAdd(a, other) == Step(a, Raised(TypeError))
  {
    if other.RatArg? && a.den != 0 && other.r.den != 0 {
      var b := other.r;
      ReduceNormalises(Rat(a.num * b.den + a.den * b.num, a.den * b.den));
    }
  }

  /** `-=` with a Rational right operand computes what `-` computes; with an
      int it reduces the difference that `-` leaves unreduced. */
  lemma InPlaceSubAgrees(a: Rat, other: Operand)
    ensures other.RatArg? && a.den != 0 && other.r.den != 0 ==>
      Sub(a, other).Ok? && InPlaceSub(a, other) == Step(Sub(a, other).value, Done)
    ensures other.RatArg? && a.den * other.r.den == 0 ==>
      InPlaceSub(a, other)
        == Step(Rat(a.num * other.r.den - a.den * other.r.num, a.den), Raised(ValueError))
    ensures other.IntArg? && a.den != 0 ==> (
      InPlaceSub(a, other).outcome == Done
      && Sub(a, other).Ok? && Reduce(Sub(a, other).value).Ok?
      && InPlaceSub(a, other).state == Reduce(Sub(a, other).value).value
      && Canonical(InPlaceSub(a, other).state)
      && RealValue(InPlaceSub(a, other).state) == RealValue(a) - other.i as real)
    ensures !other.RatArg? && !other.IntArg? ==> InPlaceSub(a, other) == Step(a, Raised(TypeError))
  {
    match other
    case RatArg(b) =>
      if a.den != 0 && b.den != 0 {
        ReduceNormalises(Rat(a.num * b.den - a.den * b.num, a.den * b.den));
      }
    case IntArg(k) =>
      if a.den != 0 {
        SubIsDifference(a, other);
        ReduceNormalises(Sub(a, other).value);
      }
    case _ =>
  }

  /** `*=` computes what `*` computes, for both Rational and int right
      operands. */
  lemma InPlaceMulAgrees(a: Rat, other: Operand)
    ensures other.RatArg? && a.den != 0 && other.r.den != 0 ==>
      Mul(a, other).Ok? && InPlaceMul(a, other) == Step(Mul(a, other).value, Done)
    ensures other.RatArg? && a.den * other.r.den == 0 ==>
      InPlaceMul(a, other) == Step(Rat(a.num * other.r.num, a.den), Raised(ValueError))
    ensures other.IntArg? && a.den != 0 ==>
      Mul(a, other).Ok? && InPlaceMul(a, other) == Step(Mul(a, other).value, Done)
    ensures !other.RatArg? && !other.IntArg? ==> InPlaceMul(a, other) == Step(a, Raised(TypeError))
  {
    match other
    case RatArg(b) =>
      if a.den != 0 && b.den != 0 {
        ReduceNormalises(Rat(a.num * b.num, a.den * b.den));
      }
    case IntArg(k) =>
      if a.den != 0 {
        ReduceNormalises(Rat(a.num * k, a.den));
      }
    case _ =>
  }

  /** `/=` raises ZeroDivisionError for a zero Rational but ValueError for
      int 0, leaving the receiver as it was; otherwise a Rational right
      operand gives what `/` gives, and an int the reduced form of what `/`
      leaves unreduced. */
  lemma InPlaceDivAgrees(a: Rat, other: Operand)
    ensures other.RatArg? && other.r.num == 0 ==>
      InPlaceDiv(a, other) == Step(a, Raised(ZeroDivisionError))
    ensures other == IntArg(0) ==> InPlaceDiv(a, other) == Step(a, Raised(ValueError))
    ensures other.RatArg? && other.r.num != 0 && a.den != 0 && other.r.den != 0 ==>
      Div(a, other).Ok? && InPlaceDiv(a, other) == Step(Div(a, other).value, Done)
    ensures other.IntArg? && other.i != 0 && a.den != 0 ==> (
      InPlaceDiv(a, other).outcome == Done
      && Div(a, other).Ok? && Reduce(Div(a, other).value).Ok?
      && InPlaceDiv(a, other).state == Reduce(Div(a, other).value).value
      && Canonical(InPlaceDiv(a, other).state)
      && RealValue(InPlaceDiv(a, other).state) == RealValue(a) / other.i as real)
    ensures !other.RatArg? && !other.IntArg? ==> InPlaceDiv(a, other) == Step(a, Raised(TypeError))
  {
    match other
    case RatArg(b) =>
      if b.num != 0 && a.den != 0 && b.den != 0 {
        ReduceNormalises(Rat(a.num * b.den, a.den * b.num));
      }
    case IntArg(k) =>
      if k != 0 && a.den != 0 {
        DivIsQuotient(a, other);
        ReduceNormalises(Div(a, other).value);
      }
    case _ =>
  }

  // ---------------------------------------------------------------------
  // Expected values from test_rational.py

  lemma ExampleSmallFractions()
    ensures Add(Rat(1, 2), RatArg(Rat(1, 2))) == Ok(Rat(1, 1))
    ensures Sub(Rat(1, 2), RatArg(Rat(1, 4))) == Ok(Rat(1, 4))
    ensures Mul(Rat(1, 2), RatArg(Rat(1, 2))) == Ok(Rat(1, 4))
  {
  }

  lemma ExampleSmallQuotients()
    ensures Div(Rat(1, 2), RatArg(Rat(1, 2))) == Ok(Rat(1, 1))
    ensures Div(Rat(1, 2), RatArg(Rat(0, 1))) == Err(ZeroDivisionError)
    ensures InPlaceDiv(Rat(1, 2), RatArg(Rat(0, 1))).outcome == Raised(ZeroDivisionError)
    ensures Neg(Rat(1, 2)) == Rat(-1, 2) && AbsValue(Rat(-1, 2)) == Rat(1, 2)
    ensures Power(Rat(1, 2), 2) == Rat(1, 4)
  {
  }

  const TenTo50: int := 100000000000000000000000000000000000000000000000000
  const TenTo100: int := 10000000000000000000000000000000000000000000000000000000000000000000000000000000000000000000000000000

  /** The bignum cases of test_rational.py (lines 118-149); the gcd loop is
      unrolled step by step (15 and 10 rounds of Euclid). */
  lemma ExampleLargeNumbers()
    ensures Add(Rat(123456789, 987654321), RatArg(Rat(987654321, 123456789)))
         == Ok(Rat(12230896747409402, 1505341124847349))
    ensures Div(Rat(123456789, 987654321), RatArg(Rat(987654321, 123456789)))
         == Ok(Rat(188167638891241, 12042729108518161))
    ensures Mul(Rat(TenTo100, TenTo50), RatArg(Rat(TenTo50, TenTo100))) == Ok(Rat(1, 1))
    ensures Div(Rat(TenTo100, TenTo50), RatArg(Rat(TenTo50, TenTo100))) == Ok(Rat(TenTo100, 1))
  {
    assert PyGcd(990702636540161562, 121932631112635269) == PyGcd(121932631112635269, 15241587639079410);
    assert PyGcd(121932631112635269, 15241587639079410) == PyGcd(15241587639079410, 15241517639079399);
    assert PyGcd(15241587639079410, 15241517639079399) == PyGcd(15241517639079399, 70000000011);
    assert PyGcd(15241517639079399, 70000000011) == PyGcd(70000000011, 67636684314);
    assert PyGcd(70000000011, 67636684314) == PyGcd(67636684314, 2363315697);
    assert PyGcd(67636684314, 2363315697) == PyGcd(2363315697, 1463844798);
    assert PyGcd(2363315697, 1463844798) == PyGcd(1463844798, 899470899);
    assert PyGcd(1463844798, 899470899) == PyGcd(899470899, 564373899);
    assert PyGcd(899470899, 564373899) == PyGcd(564373899, 335097000);
    assert PyGcd(564373899, 335097000) == PyGcd(335097000, 229276899);
    assert PyGcd(335097000, 229276899) == PyGcd(229276899, 105820101);
    assert PyGcd(229276899, 105820101) == PyGcd(105820101, 17636697);
    assert PyGcd(105820101, 17636697) == PyGcd(17636697, 17636616);
    assert PyGcd(17636697, 17636616) == PyGcd(17636616, 81);
    assert PyGcd(17636616, 81) == PyGcd(81, 0);
    assert PyGcd(15241578750190521, 975461057789971041) == PyGcd(975461057789971041, 15241578750190521);
    assert PyGcd(975461057789971041, 15241578750190521) == PyGcd(15241578750190521, 17777777697);
    assert PyGcd(15241578750190521, 17777777697) == PyGcd(17777777697, 14374999935);
    assert PyGcd(17777777697, 14374999935) == PyGcd(14374999935, 3402777762);
    assert PyGcd(14374999935, 3402777762) == PyGcd(3402777762, 763888887);
    assert PyGcd(3402777762, 763888887) == PyGcd(763888887, 347222214);
    assert PyGcd(763888887, 347222214) == PyGcd(347222214, 69444459);
    assert PyGcd(347222214, 69444459) == PyGcd(69444459, 69444378);
    assert PyGcd(69444459, 69444378) == PyGcd(69444378, 81);
    assert PyGcd(69444378, 81) == PyGcd(81, 0);
    var big := TenTo100 * TenTo50;
    assert PyGcd(big, big) == PyGcd(big, 0);
    var square := TenTo100 * TenTo100;
    var smaller := TenTo50 * TenTo50;
    assert smaller == TenTo100;
    assert PyMod(square, smaller) == 0;
    assert PyGcd(square, smaller) == PyGcd(smaller, 0);
  }
}
