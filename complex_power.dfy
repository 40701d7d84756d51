/** What `Complex.__pow__` computes: the square-and-multiply loop leaves
    `c^n` in `result` and `c^(2^k)` in the receiver it squares in place, with
    `k` the number of binary digits of `n`. */
module PowerLaws {
  import opened Runtime
  import opened Complexes
  import opened ComplexLaws
  import opened OperatorLaws
  import R = Rationals

  /** The number of binary digits of `n`, which is how many times the loop
      of `__pow__` runs. */
  function BitLength(n: nat): (k: nat)
    ensures n < Pow(2, k)
    ensures n > 0 ==> k > 0 && Pow(2, k - 1) <= n
  {
    if n == 0 then 0 else 1 + BitLength(n / 2)
  }

  /** A product whose right factor has a zero denominator raises, whatever
      the left factor. */
  lemma MalformedProductRaises(c: Cpx, o: Cpx)
    requires !WellFormed(o)
    ensures ComplexProduct(c, o).Err?
  {
    if o.re.den == 0 {
      R.ReduceZeroDenominator(Rat(c.re.num * o.re.num, c.re.den * o.re.den));
    } else {
      R.ReduceZeroDenominator(Rat(c.im.num * o.im.num, c.im.den * o.im.den));
    }
  }

  /** Multiplication distributes over addition, on either side. */
  lemma Distribute(x: int, y: int, b: int)
    ensures (x + y) * b == x * b + y * b
    ensures b * (x + y) == b * x + b * y
  {
  }

  /** The step `result *= base` taken on odd `m`, and skipped on even `m`. */
  function MultiplyIfOdd(result: Cpx, base: Cpx, m: nat, fl: Floats): CStep
  {
    if m % 2 == 1 then InPlaceMul(result, ComplexArg(base), fl) else CStep(result, Done)
  }

  /** The exponent of `result` when the loop ends, started with `result =
      z^a` and `base = z^b`: a turn adds `b` on odd `m` and doubles `b`. */
  function ResultExponent(a: nat, b: nat, m: nat): nat
    decreases m
  {
    if m == 0 then a else ResultExponent(if m % 2 == 1 then a + b else a, b + b, m / 2)
  }

  /** The exponent of `base` when the loop ends: doubled once per turn. */
  function BaseExponent(b: nat, m: nat): nat
    decreases m
  {
    if m == 0 then b else BaseExponent(b + b, m / 2)
  }

  /** The loop is heading for `a + m * b`. */
  lemma {:induction false} ResultExponentIs(a: nat, b: nat, m: nat)
    ensures ResultExponent(a, b, m) == a + m * b
    decreases m
  {
    if m > 0 {
      ResultExponentIs(if m % 2 == 1 then a + b else a, b + b, m / 2);
      TurnKeepsExponent(m, a, b);
    }
  }

  /** The base ends at `b * 2^k`, `k` the bit length of `m`. */
  lemma {:induction false} BaseExponentIs(b: nat, m: nat)
    ensures BaseExponent(b, m) == b * Pow(2, BitLength(m))
    decreases m
  {
    if m > 0 {
      BaseExponentIs(b + b, m / 2);
      TurnKeepsBaseExponent(m, b);
    }
  }

  /** One turn of the loop on `result = z^a` and `base = z^b` leaves `z^(a +
      b)` (odd `m`) or `z^a` (even `m`) in `result` and `z^(2b)` in `base`. */
  lemma TurnMultipliesPowers(result: Cpx, base: Cpx, m: nat, fl: Floats, z: CReal, a: nat, b: nat)
    requires WellFormed(result) && WellFormed(base)
    requires Value(result) == CPow(z, a) && Value(base) == CPow(z, b)
    ensures MultiplyIfOdd(result, base, m, fl).outcome == Done
    ensures WellFormed(MultiplyIfOdd(result, base, m, fl).state)
    ensures Value(MultiplyIfOdd(result, base, m, fl).state) == CPow(z, if m % 2 == 1 then a + b else a)
    ensures InPlaceMul(base, ComplexArg(base), fl).outcome == Done
    ensures WellFormed(InPlaceMul(base, ComplexArg(base), fl).state)
    ensures Value(InPlaceMul(base, ComplexArg(base), fl).state) == CPow(z, b + b)
  {
    if m % 2 == 1 {
      InPlaceMulIsProduct(result, ComplexArg(base), fl);
      CPowAdd(z, a, b);
    }
    InPlaceMulIsProduct(base, ComplexArg(base), fl);
    CPowAdd(z, b, b);
  }

  /** `a + p * b + h * 2b == a + (2h + p) * b`. */
  lemma KeepsSum(h: nat, p: nat, a: nat, b: nat)
    ensures a + p * b + h * (b + b) == a + (h + h + p) * b
  {
    Distribute(h + h, p, b);
    Distribute(h, h, b);
    Distribute(b, b, h);
  }

  /** `2b * 2^k == b * 2^(k + 1)`. */
  lemma DoublePow(b: int, k: nat)
    ensures (b + b) * Pow(2, k) == b * Pow(2, k + 1)
  {
    var x := Pow(2, k);
    assert Pow(2, k + 1) == x + x;
    Distribute(b, b, x);
    Distribute(x, x, b);
  }

  /** A turn keeps the exponent `a + m * b` the loop is heading for. */
  lemma TurnKeepsExponent(m: nat, a: nat, b: nat)
    requires m > 0
    ensures (if m % 2 == 1 then a + b else a) + (m / 2) * (b + b) == a + m * b
  {
    KeepsSum(m / 2, m % 2, a, b);
    assert m == m / 2 + m / 2 + m % 2;
  }

  /** A turn keeps the exponent `b * 2^(bits of m)` of the final base. */
  lemma TurnKeepsBaseExponent(m: nat, b: nat)
    requires m > 0
    ensures (b + b) * Pow(2, BitLength(m / 2)) == b * Pow(2, BitLength(m))
  {
    DoublePow(b, BitLength(m / 2));
  }

  /** The loop, started from `result = z^a` and `base = z^b`, finishes
      without raising and leaves powers of `z` in both. */
  lemma {:induction false} SquareAndMultiplyPowers(result: Cpx, base: Cpx, m: nat, fl: Floats, z: CReal, a: nat, b: nat)
    requires WellFormed(result) && WellFormed(base)
    requires Value(result) == CPow(z, a) && Value(base) == CPow(z, b)
    ensures SquareAndMultiply(result, base, m, fl).outcome == Done
    ensures WellFormed(SquareAndMultiply(result, base, m, fl).result)
    ensures WellFormed(SquareAndMultiply(result, base, m, fl).base)
    ensures Value(SquareAndMultiply(result, base, m, fl).result) == CPow(z, ResultExponent(a, b, m))
    ensures Value(SquareAndMultiply(result, base, m, fl).base) == CPow(z, BaseExponent(b, m))
    decreases m
  {
    if m > 0 {
      TurnMultipliesPowers(result, base, m, fl, z, a, b);
      var r := MultiplyIfOdd(result, base, m, fl);
      var s := InPlaceMul(base, ComplexArg(base), fl);
      assert SquareAndMultiply(result, base, m, fl) == SquareAndMultiply(r.state, s.state, m / 2, fl);
      SquareAndMultiplyPowers(r.state, s.state, m / 2, fl, z, if m % 2 == 1 then a + b else a, b + b);
    }
  }

  /** With a malformed receiver the first turn of the loop raises: `result *=
      base` or `base *= base` meets a zero denominator before writing
      anything, so the receiver is left as it was. */
  lemma MalformedLoopRaises(result: Cpx, base: Cpx, m: nat, fl: Floats)
    requires !WellFormed(base) && m > 0
    ensures SquareAndMultiply(result, base, m, fl).outcome.Raised?
    ensures SquareAndMultiply(result, base, m, fl).base == base
  {
    MalformedProductRaises(result, base);
    MalformedProductRaises(base, base);
  }

  /** `c ** n` for `n >= 2` (complex.py:262-270) returns `c^n`, and raises
      when the receiver is malformed, leaving it unchanged. */
  lemma LoopResult(c: Cpx, n: int, fl: Floats)
    requires n >= 2
    ensures WellFormed(c) ==> (
      && Power(c, IntArg(n), fl).result.Ok?
      && WellFormed(Power(c, IntArg(n), fl).result.value)
      && Value(Power(c, IntArg(n), fl).result.value) == CPow(Value(c), n))
    ensures !WellFormed(c) ==>
      Power(c, IntArg(n), fl).result.Err? && Power(c, IntArg(n), fl).receiver == c
  {
    PowerRunsLoop(c, n, fl);
    if WellFormed(c) {
      StartPowers(c);
      SquareAndMultiplyPowers(One, c, n, fl, Value(c), 0, 1);
      ResultExponentIs(0, 1, n);
      assert ResultExponent(0, 1, n) == n;
    } else {
      MalformedLoopRaises(One, c, n, fl);
    }
  }

  /** `c ** n` for `n >= 2` leaves the receiver at `c^(2^k)`, `k` the bit
      length of `n`, because `base` is the receiver itself. */
  lemma LoopReceiver(c: Cpx, n: int, fl: Floats)
    requires n >= 2 && WellFormed(c)
    ensures WellFormed(Power(c, IntArg(n), fl).receiver)
    ensures Value(Power(c, IntArg(n), fl).receiver) == CPow(Value(c), Pow(2, BitLength(n)))
  {
    PowerRunsLoop(c, n, fl);
    StartPowers(c);
    SquareAndMultiplyPowers(One, c, n, fl, Value(c), 0, 1);
    BaseExponentIs(1, n);
    assert BaseExponent(1, n) == Pow(2, BitLength(n));
  }

  /** From exponent 2 on, `__pow__` is its loop started from `Complex(1, 0)`
      and the receiver. */
  lemma PowerRunsLoop(c: Cpx, n: int, fl: Floats)
    requires n >= 2
    ensures SquareAndMultiply(One, c, n, fl).outcome.Raised? ==>
      Power(c, IntArg(n), fl).result == Err(SquareAndMultiply(One, c, n, fl).outcome.error)
    ensures SquareAndMultiply(One, c, n, fl).outcome == Done ==>
      Power(c, IntArg(n), fl).result == Ok(SquareAndMultiply(One, c, n, fl).result)
    ensures Power(c, IntArg(n), fl).receiver == SquareAndMultiply(One, c, n, fl).base
  {
  }

  /** The loop starts from `result = z^0` and `base = z^1`. */
  lemma StartPowers(c: Cpx)
    requires WellFormed(c)
    ensures WellFormed(One) && Value(One) == CPow(Value(c), 0)
    ensures Value(c) == CPow(Value(c), 1)
  {
    var z := Value(c);
    assert CMul(z, CReal(1.0, 0.0)) == z;
  }

  /** After `c ** 2` the receiver holds the square of the value returned:
      both the result and the receiver were squared once more
      (test_complex.py:56-63 depends on this). */
  lemma SquaringSquaresReceiverTwice(c: Cpx, fl: Floats)
    requires WellFormed(c)
    ensures Power(c, IntArg(2), fl).result.Ok?
    ensures WellFormed(Power(c, IntArg(2), fl).result.value)
    ensures WellFormed(Power(c, IntArg(2), fl).receiver)
    ensures Value(Power(c, IntArg(2), fl).receiver)
      == CMul(Value(Power(c, IntArg(2), fl).result.value), Value(Power(c, IntArg(2), fl).result.value))
  {
    LoopResult(c, 2, fl);
    LoopReceiver(c, 2, fl);
    assert Pow(2, BitLength(2)) == 2 + 2;
    CPowAdd(Value(c), 2, 2);
  }

  /** `c ** e` outside the loop (complex.py:254-261): a non-int exponent
      raises TypeError, 0 gives `1 + 0i`, 1 gives the receiver, and a negative
      exponent never changes the receiver. */
  lemma PowerWithoutLoop(c: Cpx, e: Operand, fl: Floats)
    ensures !e.IntArg? ==> Power(c, e, fl) == PowEffect(Err(TypeError), c)
    ensures e == IntArg(0) ==> Power(c, e, fl) == PowEffect(Ok(One), c)
    ensures e == IntArg(1) ==> Power(c, e, fl) == PowEffect(Ok(c), c)
    ensures e.IntArg? && e.i < 0 ==> Power(c, e, fl).receiver == c
  {
  }

  /** `c ** -n` (complex.py:256-257, 272-281): a zero receiver raises
      ValueError from `inverse()`. Otherwise the inverse exists, is well
      formed, and `c ** -1` is that inverse, while for `n >= 2` the result is
      the inverse raised to the `n`-th power. */
  lemma NegativePower(c: Cpx, n: int, fl: Floats)
    requires WellFormed(c) && n < 0
    ensures c.re.num == 0 && c.im.num == 0 ==> Power(c, IntArg(n), fl).result == Err(ValueError)
    ensures c.re.num != 0 || c.im.num != 0 ==> (
      && Inverse(c, fl).Ok?
      && WellFormed(Inverse(c, fl).value)
      && (n == -1 ==> Power(c, IntArg(n), fl).result == Inverse(c, fl))
      && (n <= -2 ==>
            Power(c, IntArg(n), fl).result.Ok?
            && WellFormed(Power(c, IntArg(n), fl).result.value)
            && Value(Power(c, IntArg(n), fl).result.value) == CPow(Value(Inverse(c, fl).value), -n)))
  {
    InverseRounds(c, fl);
    PowerOfInverse(c, n, fl);
    if c.re.num != 0 || c.im.num != 0 {
      var inv := Inverse(c, fl).value;
      if n == -1 {
        assert Power(inv, IntArg(1), fl).result == Ok(inv);
      } else {
        LoopResult(inv, -n, fl);
      }
    }
  }

  /** A negative exponent is the positive one applied to the inverse. */
  lemma PowerOfInverse(c: Cpx, n: int, fl: Floats)
    requires n < 0
    ensures Inverse(c, fl).Err? ==> Power(c, IntArg(n), fl).result == Err(Inverse(c, fl).error)
    ensures Inverse(c, fl).Ok? ==>
      Power(c, IntArg(n), fl).result == Power(Inverse(c, fl).value, IntArg(-n), fl).result
  {
  }

  /** `Complex(Rational(1, 2), Rational(3, 4)) ** 2` returns `-0.3125 +
      0.75i` (test_complex.py:56-59), whatever fractions stand for the two
      parts. */
  lemma PowExample(c: Cpx, fl: Floats)
    requires WellFormed(c) && Value(c) == CReal(0.5, 0.75)
    ensures Power(c, IntArg(2), fl).result.Ok?
    ensures WellFormed(Power(c, IntArg(2), fl).result.value)
    ensures Value(Power(c, IntArg(2), fl).result.value) == CReal(-0.3125, 0.75)
  {
    LoopResult(c, 2, fl);
    assert CPow(CReal(0.5, 0.75), 2) == CReal(-0.3125, 0.75);
  }
}
