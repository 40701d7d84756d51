/** What the operators of complex.py compute, stated on pairs of reals: the
    exact components each non-mutating operator hands to the constructor,
    the effect of each in-place operator, and the error each raises. */
module ComplexLaws {
  import opened Runtime
  import opened Complexes
  import R = Rationals
  import RL = RationalLaws

  /** Both components have a non-zero denominator, so both stand for a
      number. */
  predicate WellFormed(c: Cpx)
  {
    c.re.den != 0 && c.im.den != 0
  }

  /** Both components are in lowest terms with a positive denominator. */
  ghost predicate CanonicalParts(c: Cpx)
  {
    R.Canonical(c.re) && R.Canonical(c.im)
  }

  /** A complex number as a pair of reals. */
  datatype CReal = CReal(x: real, y: real)

  /** The number a well-formed Complex stands for. */
  ghost function Value(c: Cpx): CReal
    requires WellFormed(c)
  {
    CReal(R.RealValue(c.re), R.RealValue(c.im))
  }

  function CAdd(a: CReal, b: CReal): CReal
  {
    CReal(a.x + b.x, a.y + b.y)
  }

  function CSub(a: CReal, b: CReal): CReal
  {
    CReal(a.x - b.x, a.y - b.y)
  }

  function CMul(a: CReal, b: CReal): CReal
  {
    CReal(a.x * b.x - a.y * b.y, a.x * b.y + a.y * b.x)
  }

  /** The squared modulus `x^2 + y^2`. */
  ghost function Norm(z: CReal): real
  {
    z.x * z.x + z.y * z.y
  }

  /** `((ac + bd) / n, (bc - ad) / n)` for `c = a + bi`, `o = p + qi` and
      `n` the squared modulus of `o`: the textbook quotient `c / o`. */
  ghost function QuotientBy(c: CReal, o: CReal, n: real): CReal
    requires n != 0.0
  {
    CReal(Dot(c, o) / n, Cross(c, o) / n)
  }

  /** `ac + bd` for `c = a + bi`, `o = p + qi`. */
  ghost function Dot(c: CReal, o: CReal): real
  {
    c.x * o.x + c.y * o.y
  }

  /** `bc - ad` for `c = a + bi`, `o = p + qi`. */
  ghost function Cross(c: CReal, o: CReal): real
  {
    c.y * o.x - c.x * o.y
  }

  /** `z` raised to the `n`-th power. */
  ghost function CPow(z: CReal, n: nat): CReal
  {
    if n == 0 then CReal(1.0, 0.0) else CMul(z, CPow(z, n - 1))
  }

  // ---------------------------------------------------------------------
  // Algebra of pairs of reals

  lemma CMulAssociative(a: CReal, b: CReal, c: CReal)
    ensures CMul(CMul(a, b), c) == CMul(a, CMul(b, c))
  {
    var ab := CMul(a, b);
    var bc := CMul(b, c);
    assert ab.x * c.x - ab.y * c.y == a.x * bc.x - a.y * bc.y;
    assert ab.x * c.y + ab.y * c.x == a.x * bc.y + a.y * bc.x;
  }

  /** Multiplying powers of the same number adds the exponents. */
  lemma {:induction false} CPowAdd(z: CReal, m: nat, n: nat)
    ensures CMul(CPow(z, m), CPow(z, n)) == CPow(z, m + n)
  {
    if m == 0 {
      var p := CPow(z, n);
      assert CMul(CReal(1.0, 0.0), p) == p;
    } else {
      CPowAdd(z, m - 1, n);
      CMulAssociative(z, CPow(z, m - 1), CPow(z, n));
    }
  }

  /** `a / b` for `b != 0`, checked through `(a / b) * b == a`. */
  lemma QuotientAlgebra(a: real, b: real, p: real, q: real, d: real)
    requires d == p * p + q * q && d != 0.0
    ensures CMul(CReal((a * p + b * q) / d, (b * p - a * q) / d), CReal(p, q)) == CReal(a, b)
  {
    var u := (a * p + b * q) / d;
    var v := (b * p - a * q) / d;
    assert u * d == a * p + b * q;
    assert v * d == b * p - a * q;
    assert (u * p - v * q) * d == a * d by {
      assert (u * p - v * q) * d == (u * d) * p - (v * d) * q;
    }
    assert (u * q + v * p) * d == b * d by {
      assert (u * q + v * p) * d == (u * d) * q + (v * d) * p;
    }
  }

  /** `a * b`, kept behind a function so that the solver does not rewrite
      the sign of a square. */
  ghost function Product(a: real, b: real): real
  {
    a * b
  }

  lemma ProductPositive(a: real, b: real)
    requires a > 0.0 && b > 0.0
    ensures Product(a, b) > 0.0
  {
    assert a * b > 0.0;
  }

  /** A square is never negative, and zero only for zero. */
  lemma SquareSign(p: real)
    ensures Product(p, p) >= 0.0
    ensures Product(p, p) == 0.0 <==> p == 0.0
  {
    if p > 0.0 {
      ProductPositive(p, p);
    } else if p < 0.0 {
      ProductPositive(-p, -p);
      assert Product(p, p) == Product(-p, -p);
    } else {
      assert Product(p, p) == 0.0 * 0.0;
    }
  }

  /** The pair formulas written with `Product`, so that a proof about
      Rationals can match them term by term. */
  lemma PartsAsProducts(a: real, b: real, p: real, q: real)
    ensures CMul(CReal(a, b), CReal(p, q)).x == Product(a, p) - Product(b, q)
    ensures CMul(CReal(a, b), CReal(p, q)).y == Product(a, q) + Product(b, p)
    ensures Dot(CReal(a, b), CReal(p, q)) == Product(a, p) + Product(b, q)
    ensures Cross(CReal(a, b), CReal(p, q)) == Product(b, p) - Product(a, q)
    ensures Norm(CReal(a, b)) == Product(a, a) + Product(b, b)
  {
  }

  /** Scaling by a real, written with `Product`. */
  lemma ScaleAsProducts(a: real, b: real, k: real)
    ensures CMul(CReal(a, b), CReal(k, 0.0)) == CReal(Product(a, k), Product(b, k))
  {
  }

  /** The quotient formula on pairs of reals undoes multiplication by a
      non-zero divisor. */
  lemma QuotientUndoesProduct(q: CReal, o: CReal, c: CReal, n: real)
    requires n == Norm(o) && n != 0.0
    requires q == QuotientBy(c, o, n)
    ensures CMul(q, o) == c
  {
    QuotientAlgebra(c.x, c.y, o.x, o.y, n);
  }

  /** `(x / n, -y / n)` with `n = x^2 + y^2` is the reciprocal of `(x, y)`. */
  lemma ReciprocalUndoesProduct(q: CReal, c: CReal, n: real)
    requires n == Norm(c) && n != 0.0
    requires q == CReal(c.x / n, -c.y / n)
    ensures CMul(q, c) == CReal(1.0, 0.0)
  {
    QuotientAlgebra(1.0, 0.0, c.x, c.y, n);
    assert (1.0 * c.x + 0.0 * c.y) / n == c.x / n;
    assert (0.0 * c.x - 1.0 * c.y) / n == -c.y / n;
  }

  /** A sum of two squares is zero only when both are. */
  lemma SquaresVanish(p: real, q: real)
    ensures p * p + q * q == 0.0 <==> p == 0.0 && q == 0.0
  {
    SquareSign(p);
    SquareSign(q);
    assert p * p + q * q == Product(p, p) + Product(q, q);
  }

  /** A fraction stands for zero exactly when its numerator is zero. */
  lemma ZeroValue(r: Rat)
    requires r.den != 0
    ensures R.RealValue(r) == 0.0 <==> r.num == 0
    ensures R.Eq(r, IntArg(0)) == Ok(r.num == 0)
  {
    RL.EqIsValueEquality(r, IntArg(0));
  }

  /** k/1 is in lowest terms. */
  lemma WholeCanonical(k: int)
    ensures R.Canonical(Rat(k, 1))
  {
    forall j | j > 0 && Divides(j, k) && Divides(j, 1)
      ensures j == 1
    {
      if j > 1 {
        assert false;
      }
    }
  }

  /** The Rational operators on two well-formed Rationals, reduced to the
      facts the complex formulas need. */
  lemma AddValue(a: Rat, b: Rat)
    requires a.den != 0 && b.den != 0
    ensures R.Add(a, RatArg(b)).Ok? && R.Canonical(R.Add(a, RatArg(b)).value)
    ensures R.RealValue(R.Add(a, RatArg(b)).value) == R.RealValue(a) + R.RealValue(b)
  {
    RL.AddIsSum(a, RatArg(b));
  }

  lemma SubValue(a: Rat, b: Rat)
    requires a.den != 0 && b.den != 0
    ensures R.Sub(a, RatArg(b)).Ok? && R.Canonical(R.Sub(a, RatArg(b)).value)
    ensures R.RealValue(R.Sub(a, RatArg(b)).value) == R.RealValue(a) - R.RealValue(b)
  {
    RL.SubIsDifference(a, RatArg(b));
  }

  lemma MulValue(a: Rat, b: Rat)
    requires a.den != 0 && b.den != 0
    ensures R.Mul(a, RatArg(b)).Ok? && R.Canonical(R.Mul(a, RatArg(b)).value)
    ensures R.RealValue(R.Mul(a, RatArg(b)).value) == Product(R.RealValue(a), R.RealValue(b))
  {
    RL.MulIsProduct(a, RatArg(b));
  }

  lemma DivValue(a: Rat, b: Rat)
    requires a.den != 0 && b.den != 0 && b.num != 0
    ensures R.Div(a, RatArg(b)).Ok? && R.Canonical(R.Div(a, RatArg(b)).value)
    ensures R.RealValue(R.Div(a, RatArg(b)).value) == R.RealValue(a) / R.RealValue(b)
  {
    RL.DivIsQuotient(a, RatArg(b));
  }

  // ---------------------------------------------------------------------
  // Construction

  /** `Complex(a, b)` with two ints holds a/1 and b/1, in lowest terms;
      `Complex(r)` keeps a Rational as it is, while `Complex(r, 0)` sends it
      through a float and raises ZeroDivisionError when its denominator is
      0. */
  lemma ConstructionKeepsOrRounds(a: int, b: int, r: Rat, fl: Floats)
    ensures ConstructTwo(IntArg(a), IntArg(b), fl) == Ok(Cpx(Rat(a, 1), Rat(b, 1)))
    ensures CanonicalParts(Cpx(Rat(a, 1), Rat(b, 1)))
    ensures Value(Cpx(Rat(a, 1), Rat(b, 1))) == CReal(a as real, b as real)
    ensures ConstructOne(RatArg(r), fl) == Ok(Cpx(r, Rat(0, 1)))
    ensures r.den != 0 ==>
      ConstructTwo(RatArg(r), IntArg(0), fl) == Ok(Cpx(fl.fromFloat(fl.toFloat(r)), Rat(0, 1)))
    ensures r.den == 0 ==> ConstructTwo(RatArg(r), IntArg(0), fl) == Err(ZeroDivisionError)
    ensures ConstructOne(ComplexArg(Cpx(r, r)), fl) == Err(TypeError)
    ensures ConstructOne(OtherArg, fl) == Err(TypeError)
  {
    WholeCanonical(a);
    WholeCanonical(b);
  }

  /** `__init__` case by case (complex.py:11-28). With one argument the
      imaginary part defaults to 0/1 and the real part is k/1 for an int,
      `from_float(x)` for a float and the Rational itself. With two
      arguments each one is converted on its own: an int exactly, a float
      through `from_float`, a Rational through `float` and back; the first
      argument that cannot be converted decides the error. Whatever is built
      is well formed, except a Rational with a zero denominator kept by the
      one-argument form. */
  lemma ConstructionCases(x: Operand, y: Operand, fl: Floats)
    ensures x.IntArg? ==> (
      && ConstructOne(x, fl) == Ok(Cpx(Rat(x.i, 1), Rat(0, 1)))
      && Value(ConstructOne(x, fl).value) == CReal(x.i as real, 0.0))
    ensures x.FloatArg? ==> (
      && ConstructOne(x, fl) == Ok(Cpx(fl.fromFloat(x.x), Rat(0, 1)))
      && WellFormed(ConstructOne(x, fl).value)
      && Value(ConstructOne(x, fl).value) == CReal(R.RealValue(fl.fromFloat(x.x)), 0.0))
    ensures x.RatArg? ==> ConstructOne(x, fl) == Ok(Cpx(x.r, Rat(0, 1)))
    ensures x.RatArg? && x.r.den != 0 ==>
      Value(ConstructOne(x, fl).value) == CReal(R.RealValue(x.r), 0.0)
    ensures x.ComplexArg? || x.OtherArg? ==> ConstructOne(x, fl) == Err(TypeError)
    ensures y.IntArg? ==> Component(y, fl) == Ok(Rat(y.i, 1))
    ensures y.FloatArg? ==> Component(y, fl) == Ok(fl.fromFloat(y.x))
    ensures y.RatArg? && y.r.den != 0 ==> Component(y, fl) == Ok(fl.fromFloat(fl.toFloat(y.r)))
    ensures y.RatArg? && y.r.den == 0 ==> Component(y, fl) == Err(ZeroDivisionError)
    ensures y.ComplexArg? || y.OtherArg? ==> Component(y, fl) == Err(TypeError)
    ensures Component(x, fl).Err? ==> ConstructTwo(x, y, fl) == Err(Component(x, fl).error)
    ensures Component(x, fl).Ok? && Component(y, fl).Err? ==>
      ConstructTwo(x, y, fl) == Err(Component(y, fl).error)
    ensures Component(x, fl).Ok? && Component(y, fl).Ok? ==> (
      && ConstructTwo(x, y, fl) == Ok(Cpx(Component(x, fl).value, Component(y, fl).value))
      && WellFormed(ConstructTwo(x, y, fl).value))
  {
    assert R.RealValue(Rat(0, 1)) == 0.0;
    if x.IntArg? {
      assert R.RealValue(Rat(x.i, 1)) == x.i as real;
    }
  }

  /** The non-mutating operators end by handing their exact components to
      the two-argument constructor: each component becomes
      `from_float(float(x))`, and a component with a zero denominator makes
      `float` raise ZeroDivisionError. */
  lemma RebuildRounds(p: Cpx, fl: Floats)
    ensures WellFormed(p) ==>
      Rebuild(p, fl) == Ok(Cpx(fl.fromFloat(fl.toFloat(p.re)), fl.fromFloat(fl.toFloat(p.im))))
    ensures WellFormed(p) ==> Rebuild(p, fl).Ok? && WellFormed(Rebuild(p, fl).value)
    ensures !WellFormed(p) ==> Rebuild(p, fl) == Err(ZeroDivisionError)
  {
  }

  // ---------------------------------------------------------------------
  // The exact components of the non-mutating operators

  /** `self + other`: a Complex adds componentwise; a Rational or an int is
      added to the real part and the imaginary part is passed on as it is; a
      float or another object raises TypeError. */
  lemma SumPartsIsSum(c: Cpx, other: Operand)
    requires WellFormed(c)
    requires other.ComplexArg? ==> WellFormed(other.c)
    requires other.RatArg? ==> other.r.den != 0
    ensures other.ComplexArg? ==> (
      SumParts(c, other).Ok? && CanonicalParts(SumParts(c, other).value)
      && Value(SumParts(c, other).value) == CAdd(Value(c), Value(other.c)))
    ensures other.RatArg? ==> (
      SumParts(c, other).Ok? && SumParts(c, other).value.im == c.im
      && R.Canonical(SumParts(c, other).value.re)
      && Value(SumParts(c, other).value) == CAdd(Value(c), CReal(R.RealValue(other.r), 0.0)))
    ensures other.IntArg? ==> (
      SumParts(c, other).Ok? && SumParts(c, other).value.im == c.im
      && Value(SumParts(c, other).value) == CAdd(Value(c), CReal(other.i as real, 0.0)))
    ensures other.FloatArg? || other.OtherArg? ==> SumParts(c, other) == Err(TypeError)
  {
    match other
    case ComplexArg(o) =>
      RL.AddIsSum(c.re, RatArg(o.re));
      RL.AddIsSum(c.im, RatArg(o.im));
    case _ =>
      RL.AddIsSum(c.re, other);
  }

  /** `self - other`, the same way. */
  lemma DifferencePartsIsDifference(c: Cpx, other: Operand)
    requires WellFormed(c)
    requires other.ComplexArg? ==> WellFormed(other.c)
    requires other.RatArg? ==> other.r.den != 0
    ensures other.ComplexArg? ==> (
      DifferenceParts(c, other).Ok? && CanonicalParts(DifferenceParts(c, other).value)
      && Value(DifferenceParts(c, other).value) == CSub(Value(c), Value(other.c)))
    ensures other.RatArg? ==> (
      DifferenceParts(c, other).Ok? && DifferenceParts(c, other).value.im == c.im
      && R.Canonical(DifferenceParts(c, other).value.re)
      && Value(DifferenceParts(c, other).value) == CSub(Value(c), CReal(R.RealValue(other.r), 0.0)))
    ensures other.IntArg? ==> (
      DifferenceParts(c, other).Ok? && DifferenceParts(c, other).value.im == c.im
      && Value(DifferenceParts(c, other).value) == CSub(Value(c), CReal(other.i as real, 0.0)))
    ensures other.FloatArg? || other.OtherArg? ==> DifferenceParts(c, other) == Err(TypeError)
  {
    match other
    case ComplexArg(o) =>
      RL.SubIsDifference(c.re, RatArg(o.re));
      RL.SubIsDifference(c.im, RatArg(o.im));
    case _ =>
      RL.SubIsDifference(c.re, other);
  }

  /** `ac - bd` is the real part of the complex product, in lowest terms. */
  lemma ProductRealValue(c: Cpx, o: Cpx)
    requires WellFormed(c) && WellFormed(o)
    ensures ProductReal(c, o).Ok? && R.Canonical(ProductReal(c, o).value)
    ensures R.RealValue(ProductReal(c, o).value) == CMul(Value(c), Value(o)).x
  {
    MulValue(c.re, o.re);
    MulValue(c.im, o.im);
    var ac, bd := R.Mul(c.re, RatArg(o.re)).value, R.Mul(c.im, RatArg(o.im)).value;
    SubValue(ac, bd);
    assert ProductReal(c, o) == R.Sub(ac, RatArg(bd));
    PartsAsProducts(Value(c).x, Value(c).y, Value(o).x, Value(o).y);
  }

  /** `ad + bc` is the imaginary part of the complex product, in lowest
      terms. */
  lemma ProductImagValue(c: Cpx, o: Cpx)
    requires WellFormed(c) && WellFormed(o)
    ensures ProductImag(c, o).Ok? && R.Canonical(ProductImag(c, o).value)
    ensures R.RealValue(ProductImag(c, o).value) == CMul(Value(c), Value(o)).y
  {
    MulValue(c.re, o.im);
    MulValue(c.im, o.re);
    var ad, bc := R.Mul(c.re, RatArg(o.im)).value, R.Mul(c.im, RatArg(o.re)).value;
    AddValue(ad, bc);
    assert ProductImag(c, o) == R.Add(ad, RatArg(bc));
    PartsAsProducts(Value(c).x, Value(c).y, Value(o).x, Value(o).y);
  }

  /** The Rational formula `(ac - bd, ad + bc)` is the complex product, in
      lowest terms. */
  lemma ComplexProductIsProduct(c: Cpx, o: Cpx)
    requires WellFormed(c) && WellFormed(o)
    ensures ComplexProduct(c, o).Ok?
    ensures CanonicalParts(ComplexProduct(c, o).value)
    ensures Value(ComplexProduct(c, o).value) == CMul(Value(c), Value(o))
  {
    ProductRealValue(c, o);
    ProductImagValue(c, o);
  }

  /** `self * other`: a Complex gives the complex product and an int scales
      both parts, in lowest terms; a float raises TypeError, and so does a
      Rational, except that one with a zero denominator raises
      ZeroDivisionError first. */
  lemma ProductPartsIsProduct(c: Cpx, other: Operand)
    requires WellFormed(c)
    requires other.ComplexArg? ==> WellFormed(other.c)
    ensures other.ComplexArg? ==> (
      ProductParts(c, other).Ok? && CanonicalParts(ProductParts(c, other).value)
      && Value(ProductParts(c, other).value) == CMul(Value(c), Value(other.c)))
    ensures other.IntArg? ==> (
      ProductParts(c, other).Ok? && CanonicalParts(ProductParts(c, other).value)
      && Value(ProductParts(c, other).value) == CMul(Value(c), CReal(other.i as real, 0.0)))
    ensures other.RatArg? && other.r.den == 0 ==> ProductParts(c, other) == Err(ZeroDivisionError)
    ensures other.RatArg? && other.r.den != 0 ==> ProductParts(c, other) == Err(TypeError)
    ensures other.FloatArg? || other.OtherArg? ==> ProductParts(c, other) == Err(TypeError)
  {
    match other
    case ComplexArg(o) =>
      ComplexProductIsProduct(c, o);
    case IntArg(k) =>
      assert R.Mul(c.re, other) == R.Mul(c.re, RatArg(Rat(k, 1)));
      assert R.Mul(c.im, other) == R.Mul(c.im, RatArg(Rat(k, 1)));
      MulValue(c.re, Rat(k, 1));
      MulValue(c.im, Rat(k, 1));
      assert R.RealValue(Rat(k, 1)) == k as real;
      ScaleAsProducts(Value(c).x, Value(c).y, k as real);
    case _ =>
  }

  /** `other.real ** 2 + other.imag ** 2` is `|other|^2` in lowest terms, and
      it is zero exactly when both parts of `other` are. */
  lemma SquaredModulusIsNorm(o: Cpx)
    requires WellFormed(o)
    ensures SquaredModulus(o).Ok?
    ensures R.Canonical(SquaredModulus(o).value)
    ensures R.RealValue(SquaredModulus(o).value) == Norm(Value(o))
    ensures SquaredModulus(o).value.num == 0 <==> o.re.num == 0 && o.im.num == 0
  {
    SquareValue(o.re);
    SquareValue(o.im);
    AddValue(R.Power(o.re, 2), R.Power(o.im, 2));
    NormVanishes(SquaredModulus(o).value, o);
  }

  /** `r ** 2` stands for the square of `r`. */
  lemma SquareValue(r: Rat)
    requires r.den != 0
    ensures R.Power(r, 2).den != 0
    ensures R.RealValue(R.Power(r, 2)) == R.RealValue(r) * R.RealValue(r)
  {
    var x := R.RealValue(r);
    RL.PowerIsPower(r, 2);
    assert RL.RealPow(x, 2) == x * RL.RealPow(x, 1);
    assert RL.RealPow(x, 1) == x * 1.0;
  }

  /** A fraction standing for the squared modulus of `c` has numerator 0
      exactly when both parts of `c` do. */
  lemma NormVanishes(s: Rat, c: Cpx)
    requires WellFormed(c) && s.den != 0
    requires R.RealValue(s) == Norm(Value(c))
    ensures s.num == 0 <==> c.re.num == 0 && c.im.num == 0
  {
    ZeroValue(s);
    ZeroValue(c.re);
    ZeroValue(c.im);
    SquaresVanish(Value(c).x, Value(c).y);
  }

  /** `ac + bd`, in lowest terms. */
  lemma DotProductValue(c: Cpx, o: Cpx)
    requires WellFormed(c) && WellFormed(o)
    ensures DotProduct(c, o).Ok? && R.Canonical(DotProduct(c, o).value)
    ensures R.RealValue(DotProduct(c, o).value) == Dot(Value(c), Value(o))
  {
    MulValue(c.re, o.re);
    MulValue(c.im, o.im);
    var ac, bd := R.Mul(c.re, RatArg(o.re)).value, R.Mul(c.im, RatArg(o.im)).value;
    AddValue(ac, bd);
    assert DotProduct(c, o) == R.Add(ac, RatArg(bd));
    PartsAsProducts(Value(c).x, Value(c).y, Value(o).x, Value(o).y);
  }

  /** `bc - ad`, in lowest terms. */
  lemma CrossProductValue(c: Cpx, o: Cpx)
    requires WellFormed(c) && WellFormed(o)
    ensures CrossProduct(c, o).Ok? && R.Canonical(CrossProduct(c, o).value)
    ensures R.RealValue(CrossProduct(c, o).value) == Cross(Value(c), Value(o))
  {
    MulValue(c.im, o.re);
    MulValue(c.re, o.im);
    var bc, ad := R.Mul(c.im, RatArg(o.re)).value, R.Mul(c.re, RatArg(o.im)).value;
    SubValue(bc, ad);
    assert CrossProduct(c, o) == R.Sub(bc, RatArg(ad));
    PartsAsProducts(Value(c).x, Value(c).y, Value(o).x, Value(o).y);
  }

  /** `(ac + bd) / D` over a non-zero `D`, in lowest terms. */
  lemma QuotientRealValue(c: Cpx, o: Cpx, d: Rat)
    requires WellFormed(c) && WellFormed(o)
    requires d.den != 0 && d.num != 0
    ensures QuotientReal(c, o, d).Ok? && R.Canonical(QuotientReal(c, o, d).value)
    ensures R.RealValue(QuotientReal(c, o, d).value) == QuotientBy(Value(c), Value(o), R.RealValue(d)).x
  {
    DotProductValue(c, o);
    DivValue(DotProduct(c, o).value, d);
  }

  /** `(bc - ad) / D` over a non-zero `D`, in lowest terms. */
  lemma QuotientImagValue(c: Cpx, o: Cpx, d: Rat)
    requires WellFormed(c) && WellFormed(o)
    requires d.den != 0 && d.num != 0
    ensures QuotientImag(c, o, d).Ok? && R.Canonical(QuotientImag(c, o, d).value)
    ensures R.RealValue(QuotientImag(c, o, d).value) == QuotientBy(Value(c), Value(o), R.RealValue(d)).y
  {
    CrossProductValue(c, o);
    DivValue(CrossProduct(c, o).value, d);
  }

  /** The Rational formula `((ac + bd) / D, (bc - ad) / D)` with `D` the
      squared modulus of `o` is the complex quotient: times `o` it gives
      `c` back. */
  lemma ComplexQuotientIsQuotient(c: Cpx, o: Cpx)
    requires WellFormed(c) && WellFormed(o)
    requires o.re.num != 0 || o.im.num != 0
    ensures SquaredModulus(o).Ok?
    ensures ComplexQuotient(c, o, SquaredModulus(o).value).Ok?
    ensures CanonicalParts(ComplexQuotient(c, o, SquaredModulus(o).value).value)
    ensures CMul(Value(ComplexQuotient(c, o, SquaredModulus(o).value).value), Value(o)) == Value(c)
  {
    SquaredModulusIsNorm(o);
    var d := SquaredModulus(o).value;
    QuotientRealValue(c, o, d);
    QuotientImagValue(c, o, d);
    ZeroValue(d);
    var q := Cpx(QuotientReal(c, o, d).value, QuotientImag(c, o, d).value);
    assert ComplexQuotient(c, o, d) == Ok(q);
    QuotientUndoesProduct(Value(q), Value(o), Value(c), R.RealValue(d));
  }

  /** `self.real * self.real + self.imag * self.imag` is `|self|^2` in
      lowest terms. */
  lemma SelfModulusIsNorm(c: Cpx)
    requires WellFormed(c)
    ensures SelfModulus(c).Ok? && R.Canonical(SelfModulus(c).value)
    ensures R.RealValue(SelfModulus(c).value) == Norm(Value(c))
    ensures SelfModulus(c).value.num == 0 <==> c.re.num == 0 && c.im.num == 0
  {
    MulValue(c.re, c.re);
    MulValue(c.im, c.im);
    var rr, ii := R.Mul(c.re, RatArg(c.re)).value, R.Mul(c.im, RatArg(c.im)).value;
    AddValue(rr, ii);
    assert SelfModulus(c) == R.Add(rr, RatArg(ii));
    PartsAsProducts(Value(c).x, Value(c).y, 0.0, 0.0);
    NormVanishes(SelfModulus(c).value, c);
  }

  /** `self.real / D` and `-self.imag / D` over a non-zero `D`, in lowest
      terms. */
  lemma ReciprocalValues(c: Cpx, d: Rat)
    requires WellFormed(c) && d.den != 0 && d.num != 0
    ensures R.Div(c.re, RatArg(d)).Ok? && R.Canonical(R.Div(c.re, RatArg(d)).value)
    ensures R.RealValue(R.Div(c.re, RatArg(d)).value) == Value(c).x / R.RealValue(d)
    ensures R.Div(R.Neg(c.im), RatArg(d)).Ok? && R.Canonical(R.Div(R.Neg(c.im), RatArg(d)).value)
    ensures R.RealValue(R.Div(R.Neg(c.im), RatArg(d)).value) == -Value(c).y / R.RealValue(d)
  {
    RL.NegNegates(c.im);
    DivValue(c.re, d);
    DivValue(R.Neg(c.im), d);
  }

  /** `inverse()`: the reciprocal, in lowest terms, and ValueError for
      zero. */
  lemma InversePartsIsReciprocal(c: Cpx)
    requires WellFormed(c)
    ensures c.re.num == 0 && c.im.num == 0 ==> InverseParts(c) == Err(ValueError)
    ensures c.re.num != 0 || c.im.num != 0 ==> (
      InverseParts(c).Ok? && CanonicalParts(InverseParts(c).value)
      && CMul(Value(InverseParts(c).value), Value(c)) == CReal(1.0, 0.0))
  {
    SelfModulusIsNorm(c);
    var d := SelfModulus(c).value;
    ZeroValue(d);
    if c.re.num != 0 || c.im.num != 0 {
      ReciprocalValues(c, d);
      var q := Cpx(R.Div(c.re, RatArg(d)).value, R.Div(R.Neg(c.im), RatArg(d)).value);
      assert InverseParts(c) == Ok(q);
      ReciprocalUndoesProduct(Value(q), Value(c), R.RealValue(d));
    }
  }

  /** `-self` negates both parts, and `self + (-self)` is zero. */
  lemma NegationPartsNegates(c: Cpx)
    requires WellFormed(c)
    ensures WellFormed(NegationParts(c))
    ensures Value(NegationParts(c)) == CReal(-Value(c).x, -Value(c).y)
    ensures NegationParts(NegationParts(c)) == c
    ensures SumParts(c, ComplexArg(NegationParts(c))).Ok?
    ensures Value(SumParts(c, ComplexArg(NegationParts(c))).value) == CReal(0.0, 0.0)
  {
    RL.NegNegates(c.re);
    RL.NegNegates(c.im);
    SumPartsIsSum(c, ComplexArg(NegationParts(c)));
  }

  /** `==` is equality of the numbers: for a Complex, of both parts; for a
      Rational or int, of the real part with the imaginary part 0; a float
      or another object raises TypeError. `!=` is its negation. */
  lemma EqIsValueEquality(c: Cpx, other: Operand)
    requires WellFormed(c)
    requires other.ComplexArg? ==> WellFormed(other.c)
    requires other.RatArg? ==> other.r.den != 0
    ensures other.ComplexArg? ==> Eq(c, other) == Ok(Value(c) == Value(other.c))
    ensures other.ComplexArg? ==> Ne(c, other) == Ok(Value(c) != Value(other.c))
    ensures other.RatArg? ==> Eq(c, other) == Ok(Value(c) == CReal(R.RealValue(other.r), 0.0))
    ensures other.IntArg? ==> Eq(c, other) == Ok(Value(c) == CReal(other.i as real, 0.0))
    ensures other.RatArg? ==> Ne(c, other) == Ok(Value(c) != CReal(R.RealValue(other.r), 0.0))
    ensures other.IntArg? ==> Ne(c, other) == Ok(Value(c) != CReal(other.i as real, 0.0))
    ensures other.FloatArg? || other.OtherArg? ==> Eq(c, other) == Err(TypeError)
    ensures other.FloatArg? || other.OtherArg? ==> Ne(c, other) == Err(TypeError)
  {
    RL.EqIsValueEquality(c.im, RatArg(Rat(0, 1)));
    assert R.RealValue(Rat(0, 1)) == 0.0;
    match other
    case ComplexArg(o) =>
      RL.EqIsValueEquality(c.re, RatArg(o.re));
      RL.EqIsValueEquality(c.im, RatArg(o.im));
    case _ =>
      RL.EqIsValueEquality(c.re, other);
  }

  // ---------------------------------------------------------------------
  // The in-place operators against the non-mutating ones

  /** `+=` leaves in the receiver the exact components `+` computes (before
      the constructor rounds them): with a Complex both parts change, with a
      scalar only the real part; a float or another object raises TypeError
      and changes nothing. */
  lemma InPlaceAddIsSum(c: Cpx, other: Operand)
    requires WellFormed(c)
    requires other.ComplexArg? ==> WellFormed(other.c)
    requires other.RatArg? ==> other.r.den != 0
    ensures other.ComplexArg? || other.RatArg? || other.IntArg? ==> (
      SumParts(c, other).Ok? && InPlaceAdd(c, other) == CStep(SumParts(c, other).value, Done))
    ensures other.RatArg? || other.IntArg? ==> InPlaceAdd(c, other).state.im == c.im
    ensures other.FloatArg? || other.OtherArg? ==> InPlaceAdd(c, other) == CStep(c, Raised(TypeError))
  {
    match other
    case ComplexArg(o) =>
      RL.InPlaceAddAgrees(c.re, RatArg(o.re));
      RL.InPlaceAddAgrees(c.im, RatArg(o.im));
    case _ =>
      RL.InPlaceAddAgrees(c.re, other);
  }

  /** `-=` leaves the components `-` computes, with the real part reduced when
      the right operand is an int (the Rational `-=` reduces, `-` does
      not); a scalar changes only the real part. */
  lemma InPlaceSubIsDifference(c: Cpx, other: Operand)
    requires WellFormed(c)
    requires other.ComplexArg? ==> WellFormed(other.c)
    requires other.RatArg? ==> other.r.den != 0
    ensures other.ComplexArg? || other.RatArg? ==> (
      DifferenceParts(c, other).Ok? && InPlaceSub(c, other) == CStep(DifferenceParts(c, other).value, Done))
    ensures other.IntArg? ==> (
      InPlaceSub(c, other).outcome == Done && InPlaceSub(c, other).state.im == c.im
      && R.Canonical(InPlaceSub(c, other).state.re)
      && Value(InPlaceSub(c, other).state) == CSub(Value(c), CReal(other.i as real, 0.0)))
    ensures other.FloatArg? || other.OtherArg? ==> InPlaceSub(c, other) == CStep(c, Raised(TypeError))
  {
    match other
    case ComplexArg(o) =>
      RL.InPlaceSubAgrees(c.re, RatArg(o.re));
      RL.InPlaceSubAgrees(c.im, RatArg(o.im));
    case _ =>
      RL.InPlaceSubAgrees(c.re, other);
  }

  /** `*=` with a Complex leaves the complex product, computed from the old
      parts, so `c *= c` squares `c`. An int, a float or a Rational scales
      both parts, although `*` refuses a float and a Rational. */
  lemma InPlaceMulIsProduct(c: Cpx, other: Operand, fl: Floats)
    requires WellFormed(c)
    requires other.ComplexArg? ==> WellFormed(other.c)
    requires other.RatArg? ==> other.r.den != 0
    ensures other.ComplexArg? ==> (
      InPlaceMul(c, other, fl).outcome == Done
      && InPlaceMul(c, other, fl) == CStep(ProductParts(c, other).value, Done)
      && CanonicalParts(InPlaceMul(c, other, fl).state)
      && Value(InPlaceMul(c, other, fl).state) == CMul(Value(c), Value(other.c)))
    ensures other.IntArg? ==> (
      ProductParts(c, other).Ok?
      && InPlaceMul(c, other, fl) == CStep(ProductParts(c, other).value, Done))
    ensures other.FloatArg? ==> (
      InPlaceMul(c, other, fl).outcome == Done && CanonicalParts(InPlaceMul(c, other, fl).state)
      && Value(InPlaceMul(c, other, fl).state)
        == CMul(Value(c), CReal(R.RealValue(fl.fromFloat(other.x)), 0.0)))
    ensures other.RatArg? ==> (
      InPlaceMul(c, other, fl).outcome == Done && CanonicalParts(InPlaceMul(c, other, fl).state)
      && Value(InPlaceMul(c, other, fl).state) == CMul(Value(c), CReal(R.RealValue(other.r), 0.0)))
    ensures other.OtherArg? ==> InPlaceMul(c, other, fl) == CStep(c, Raised(TypeError))
  {
    match other
    case ComplexArg(o) =>
      ComplexProductIsProduct(c, o);
    case IntArg(k) =>
      InPlaceMulByInt(c, k, fl);
    case FloatArg(x) =>
      InPlaceMulByScalar(c, other, fl, fl.fromFloat(x));
    case RatArg(r) =>
      InPlaceMulByScalar(c, other, fl, r);
    case OtherArg =>
  }

  /** `*=` with an int leaves what `*` computes. */
  lemma InPlaceMulByInt(c: Cpx, k: int, fl: Floats)
    requires WellFormed(c)
    ensures ProductParts(c, IntArg(k)).Ok?
    ensures InPlaceMul(c, IntArg(k), fl) == CStep(ProductParts(c, IntArg(k)).value, Done)
  {
    RL.InPlaceMulAgrees(c.re, RatArg(Rat(k, 1)));
    RL.InPlaceMulAgrees(c.im, RatArg(Rat(k, 1)));
    assert R.Mul(c.re, RatArg(Rat(k, 1))) == R.Mul(c.re, IntArg(k));
    assert R.Mul(c.im, RatArg(Rat(k, 1))) == R.Mul(c.im, IntArg(k));
    ProductPartsIsProduct(c, IntArg(k));
  }

  /** `*=` with a float or a Rational standing for the fraction `k` scales
      both parts by `k`, in lowest terms. */
  lemma InPlaceMulByScalar(c: Cpx, other: Operand, fl: Floats, k: Rat)
    requires WellFormed(c) && k.den != 0
    requires other == RatArg(k) || (other.FloatArg? && fl.fromFloat(other.x) == k)
    ensures InPlaceMul(c, other, fl).outcome == Done
    ensures CanonicalParts(InPlaceMul(c, other, fl).state)
    ensures Value(InPlaceMul(c, other, fl).state) == CMul(Value(c), CReal(R.RealValue(k), 0.0))
  {
    RL.InPlaceMulAgrees(c.re, RatArg(k));
    RL.InPlaceMulAgrees(c.im, RatArg(k));
    MulValue(c.re, k);
    MulValue(c.im, k);
    ScaleAsProducts(Value(c).x, Value(c).y, R.RealValue(k));
  }

  /** `/=` with a Complex whose parts are both 0 raises ZeroDivisionError,
      and with any other well-formed Complex leaves the quotient `/`
      computes, so its `ValueError` branch is never reached. A zero scalar
      raises ValueError (where `/` raises ZeroDivisionError) and changes
      nothing; an int divides both parts in lowest terms; a non-zero float
      raises TypeError and changes nothing. */
  lemma InPlaceDivIsQuotient(c: Cpx, other: Operand)
    requires WellFormed(c)
    requires other.ComplexArg? ==> WellFormed(other.c)
    requires other.RatArg? ==> other.r.den != 0
    ensures other.ComplexArg? && other.c.re.num == 0 && other.c.im.num == 0 ==>
      InPlaceDiv(c, other) == CStep(c, Raised(ZeroDivisionError))
    ensures other.ComplexArg? && (other.c.re.num != 0 || other.c.im.num != 0) ==> (
      QuotientParts(c, other).Ok?
      && InPlaceDiv(c, other) == CStep(QuotientParts(c, other).value, Done))
    ensures other == IntArg(0) || (other.RatArg? && other.r.num == 0) || other == FloatArg(0.0) ==>
      InPlaceDiv(c, other) == CStep(c, Raised(ValueError))
    ensures other.IntArg? && other.i != 0 ==> (
      InPlaceDiv(c, other).outcome == Done && CanonicalParts(InPlaceDiv(c, other).state)
      && Value(InPlaceDiv(c, other).state) == CReal(Value(c).x / other.i as real, Value(c).y / other.i as real))
    ensures other.RatArg? && other.r.num != 0 ==> (
      QuotientParts(c, other).Ok?
      && InPlaceDiv(c, other) == CStep(QuotientParts(c, other).value, Done))
    ensures (other.FloatArg? && other.x != 0.0) || other.OtherArg? ==>
      InPlaceDiv(c, other) == CStep(c, Raised(TypeError))
  {
    match other
    case ComplexArg(o) =>
      ZeroValue(o.re);
      ZeroValue(o.im);
      if o.re.num != 0 || o.im.num != 0 {
        SquaredModulusIsNorm(o);
        ZeroValue(SquaredModulus(o).value);
        ComplexQuotientIsQuotient(c, o);
      }
    case RatArg(r) =>
      ZeroValue(r);
      RL.InPlaceDivAgrees(c.re, other);
      RL.InPlaceDivAgrees(c.im, other);
    case IntArg(k) =>
      RL.InPlaceDivAgrees(c.re, other);
      RL.InPlaceDivAgrees(c.im, other);
    case _ =>
  }
}
