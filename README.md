# Complex numbers over exact rationals

A model of the two classes of the Complex-numbers repository:

- `Rational` (rational.py) holds a numerator and a denominator as Python integers. `reduce` brings the pair to lowest terms with a positive denominator using Euclid's loop on Python's flooring `%`. The class has `+ - * /`, `==`, `!=` against another Rational or an int, the in-place forms of the four operators, negation, `abs` and `**`.
- `Complex` (complex.py) holds two Rational components, `real` and `imag`. Its operators accept a Complex, a Rational, an int or (nominally) a float. The non-mutating ones compute exact Rational components and pass them to the two-argument constructor. That constructor sends every non-int argument through `float` and back through `Rational.from_float`, so their results are approximations. The in-place ones write exact Rationals into the receiver. `**` is square-and-multiply on the receiver itself.

The project is organised as follows:

| file | module | contents |
|---|---|---|
| runtime.dfy | `Runtime` | The exceptions and the `Result`/`Outcome` types. The run-time type of a right operand (`Operand`). Python's `//` and `%`. |
| gcd.dfy | `Euclid` | The gcd loop of `reduce` and its sign and divisibility facts. |
| rational_values.dfy | `Rationals` | `reduce` and every Rational operator, as functions on the pair of fields. |
| rational_laws.dfy | `RationalLaws` | What those operators compute, against the rational number a pair stands for. |
| rational_class.dfy | `RationalObjects` | The `Rational` object: setters, `reduce` and the in-place operators as methods that update its fields. |
| complex_values.dfy | `Complexes` | The constructor and every Complex operator, as functions on the pair of components. |
| complex_laws.dfy | `ComplexLaws` | The exact components each operator computes, against complex arithmetic on pairs of reals. |
| complex_operators.dfy | `OperatorLaws` | Each non-mutating operator: its error cases, and its result as the rounded exact value. |
| complex_power.dfy | `PowerLaws` | `**`: the loop's result and what it leaves in the receiver. |
| complex_class.dfy | `ComplexObjects` | The `Complex` object: the in-place operators, `inverse` and `**` as methods that update its components. |

Floats are modelled as the exact real number a double denotes. `float(r)` and `Rational.from_float` are parameters of the model: the `Floats` value. Of `from_float` the model requires only that it return a positive denominator, as `Fraction` does. So every result that passes through the constructor is stated as "the constructor applied to these exact components". The exact components are then proved to be the sum, product, quotient and so on.

Where the code and the documented contract of the Complex operators differ, the model follows the code:

- A float right operand reaches `Rational + float` (and `-`, `*`, `/`, `==`), which raises TypeError. So `Complex ⊕ float` raises TypeError for every operator, except that `/` by `0.0` raises ZeroDivisionError first.
- `Complex * Rational` turns the Rational into a float and then multiplies Rationals by that float, so it raises TypeError. It raises ZeroDivisionError if the denominator is 0.
- `*=` does accept a float and a Rational: it turns the scalar into a Rational first.
- Dividing by zero in place raises ValueError for a scalar and ZeroDivisionError for a Complex. `/` raises ZeroDivisionError for both.
- `c ** n` for `n >= 2` replaces the receiver by `c^(2^k)`, where `k` is the bit length of `n`, because `base` is `self`. The test at test_complex.py:56-63 computes `c ** -2` on the receiver that `c ** 2` has already changed to `c^4`.

## Model

| member | source | states |
|---|---|---|
| Euclid.PyGcd | rational.py:84-87 | No contract; what the loop returns is stated by Euclid.GcdSign, Euclid.GcdDivides and Euclid.GcdGreatest. |
| Rationals.ReduceStep | rational.py:78-107 | No contract; stated by Rationals.ReduceNormalises, Rationals.ReduceZeroDenominator and Rationals.ReduceIdempotent. |
| Rationals.Reduce | rational.py:118-121 | No contract (reduce on a fresh object); stated by RationalLaws.FreshReduce. |
| Rationals.Add | rational.py:110-126 | No contract; stated by RationalLaws.AddIsSum. |
| Rationals.Sub | rational.py:129-145 | No contract; stated by RationalLaws.SubIsDifference. |
| Rationals.Mul | rational.py:148-179 | No contract; stated by RationalLaws.MulIsProduct. |
| Rationals.Div | rational.py:182-200 | No contract; stated by RationalLaws.DivIsQuotient. |
| Rationals.Eq | rational.py:203-215 | No contract; stated by RationalLaws.EqIsValueEquality. |
| Rationals.Neg | rational.py:325-331 | No contract; stated by RationalLaws.NegNegates. |
| Rationals.AbsValue | rational.py:349-355 | No contract; stated by RationalLaws.AbsIsMagnitude. |
| Rationals.Power | rational.py:334-346 | No contract; stated for `e >= 0` by RationalLaws.PowerIsPower. |
| Rationals.WriteAndReduce | rational.py:238-240 | No contract; the Rational branch shared by the in-place operators, stated by the RationalLaws.InPlace…Agrees lemmas. |
| Rationals.InPlaceAdd | rational.py:230-249 | No contract; stated by RationalLaws.InPlaceAddAgrees and carried out by RationalObjects.Rational.AddInPlace. |
| Rationals.InPlaceSub | rational.py:252-272 | No contract; stated by RationalLaws.InPlaceSubAgrees and carried out by RationalObjects.Rational.SubInPlace. |
| Rationals.InPlaceMul | rational.py:275-295 | No contract; stated by RationalLaws.InPlaceMulAgrees and carried out by RationalObjects.Rational.MulInPlace. |
| Rationals.InPlaceDiv | rational.py:298-322 | No contract; stated by RationalLaws.InPlaceDivAgrees and carried out by RationalObjects.Rational.DivInPlace. |
| Complexes.Component | complex.py:27-28 | No contract; stated by ComplexLaws.ConstructionCases. |
| Complexes.ConstructOne | complex.py:17-25 | No contract; stated by ComplexLaws.ConstructionCases. |
| Complexes.ConstructTwo | complex.py:26-28 | No contract; stated by ComplexLaws.ConstructionCases and ComplexLaws.ConstructionKeepsOrRounds. |
| Complexes.Rebuild | complex.py:26-28 | No contract; stated by ComplexLaws.RebuildRounds. |
| OperatorLaws.Rounded | complex.py:27-28 | No contract; the rounded pair the OperatorLaws lemmas compare results with. |
| Complexes.SumParts | complex.py:80-85 | No contract; stated by ComplexLaws.SumPartsIsSum. |
| Complexes.DifferenceParts | complex.py:94-99 | No contract; stated by ComplexLaws.DifferencePartsIsDifference. |
| Complexes.ProductReal | complex.py:110 | No contract; stated by ComplexLaws.ProductRealValue. |
| Complexes.ProductImag | complex.py:111 | No contract; stated by ComplexLaws.ProductImagValue. |
| Complexes.ComplexProduct | complex.py:108-111 | No contract; stated by ComplexLaws.ComplexProductIsProduct. |
| Complexes.ProductParts | complex.py:108-121 | No contract; stated by ComplexLaws.ProductPartsIsProduct. |
| Complexes.SquaredModulus | complex.py:131 | No contract; stated by ComplexLaws.SquaredModulusIsNorm. |
| Complexes.DotProduct | complex.py:134 | No contract; stated by ComplexLaws.DotProductValue. |
| Complexes.CrossProduct | complex.py:135 | No contract; stated by ComplexLaws.CrossProductValue. |
| Complexes.QuotientReal | complex.py:134 | No contract; stated by ComplexLaws.QuotientRealValue. |
| Complexes.QuotientImag | complex.py:135 | No contract; stated by ComplexLaws.QuotientImagValue. |
| Complexes.ComplexQuotient | complex.py:134-136 | No contract; stated by ComplexLaws.ComplexQuotientIsQuotient. |
| Complexes.ScalarIsZero | complex.py:138 | No contract; stated by ComplexLaws.ZeroValue and OperatorLaws.DivRounds. |
| Complexes.QuotientParts | complex.py:130-142 | No contract; stated by OperatorLaws.DivRounds. |
| Complexes.SelfModulus | complex.py:278 | No contract; stated by ComplexLaws.SelfModulusIsNorm. |
| Complexes.InverseParts | complex.py:278-281 | No contract; stated by ComplexLaws.InversePartsIsReciprocal. |
| Complexes.NegationParts | complex.py:289 | No contract; stated by ComplexLaws.NegationPartsNegates. |
| Complexes.Add | complex.py:73-85 | No contract; stated by OperatorLaws.AddRounds. |
| Complexes.Sub | complex.py:87-99 | No contract; stated by OperatorLaws.SubRounds. |
| Complexes.Mul | complex.py:101-121 | No contract; stated by OperatorLaws.MulRounds. |
| Complexes.Div | complex.py:123-142 | No contract; stated by OperatorLaws.DivRounds. |
| Complexes.Inverse | complex.py:272-281 | No contract; stated by OperatorLaws.InverseRounds. |
| Complexes.Neg | complex.py:283-289 | No contract; stated by OperatorLaws.NegRounds. |
| Complexes.Eq | complex.py:145-157 | No contract; stated by ComplexLaws.EqIsValueEquality. |
| Complexes.BothParts | complex.py:215-216 | No contract; the real-then-imaginary sequence of in-place Rational steps, stated through the lemmas on InPlaceAdd, InPlaceMul and InPlaceDiv. |
| Complexes.InPlaceAdd | complex.py:168-182 | No contract; stated by ComplexLaws.InPlaceAddIsSum and carried out by ComplexObjects.Complex.AddInPlace. |
| Complexes.InPlaceSub | complex.py:184-198 | No contract; stated by ComplexLaws.InPlaceSubIsDifference and carried out by ComplexObjects.Complex.SubInPlace. |
| Complexes.InPlaceMul | complex.py:200-219 | No contract; stated by ComplexLaws.InPlaceMulIsProduct and carried out by ComplexObjects.Complex.MulInPlace. |
| Complexes.InPlaceDiv | complex.py:221-245 | No contract; stated by ComplexLaws.InPlaceDivIsQuotient and carried out by ComplexObjects.Complex.DivInPlace. |
| PowerLaws.MultiplyIfOdd | complex.py:265-266 | No contract; stated by PowerLaws.TurnMultipliesPowers. |
| Complexes.SquareAndMultiply | complex.py:263-269 | No contract; stated by PowerLaws.SquareAndMultiplyPowers and PowerLaws.MalformedLoopRaises. |
| Complexes.Power | complex.py:247-270 | No contract; stated by PowerLaws.LoopResult, PowerLaws.LoopReceiver and PowerLaws.NegativePower, and carried out by ComplexObjects.Complex.Pow. Exponents 0 and 1 and a non-int exponent are read off its body. |
| Runtime.PyMod | rational.py:84-87 | Python's `%`: the remainder lies between 0 and the divisor, on the divisor's side. |
| Runtime.PyFloorDiv | rational.py:97-104 | Python's `//`: `a == q*b + a % b`. |
| Euclid.GcdSign | rational.py:84-87 | The gcd loop returns `a` when `b == 0`; otherwise its result is non-zero with the sign of `b`. |
| Euclid.GcdDivides | rational.py:84-87 | The loop's result divides both arguments. |
| Euclid.GcdGreatest | rational.py:84-87 | Every common divisor of the arguments divides the loop's result. |
| RationalObjects.Gcd | rational.py:84-87 | The nested `gcd` loop returns the greatest common divisor: it divides both arguments, every common divisor divides it, and it has the sign of `b`. |
| RationalObjects.Rational.constructor | rational.py:10-19 | `Rational(n, m)` stores both fields as given, a zero denominator included. |
| RationalObjects.Rational.SetNumerator | rational.py:32-45 | Writing an int numerator sets it and leaves the denominator alone. |
| RationalObjects.Rational.SetDenominator | rational.py:56-75 | Writing 0 raises ValueError and leaves the field unchanged. Any other int is stored. The numerator is untouched. |
| RationalObjects.Rational.Reduce | rational.py:78-107 | The fields end as `ReduceStep` of the old fields. With a non-zero denominator: same number, lowest terms, positive denominator. With 0/0: ZeroDivisionError and nothing written. With n/0: ValueError after the numerator became 1. |
| Rationals.ReduceNormalises | rational.py:78-107 | For a non-zero denominator, reduce finishes normally, keeps the value, and leaves the fraction in lowest terms with a positive denominator, so the sign-flip branch never runs. |
| Rationals.ReduceDividesByGcd | rational.py:89-104 | For a non-zero denominator, both fields are divided exactly by their gcd, which is non-zero, and the new denominator is positive. |
| Rationals.ReduceKeepsCanonical | rational.py:78-107 | A fraction already in lowest terms with a positive denominator is left as it is. |
| Rationals.ReduceIdempotent | rational.py:78-107 | Reducing twice gives the same fields as reducing once. |
| Rationals.ReduceZeroDenominator | rational.py:89-104 | 0/0 raises ZeroDivisionError with both fields unchanged; n/0 writes numerator 1 and then raises ValueError from the denominator setter. |
| Rationals.CrossProductsMeanSameValue | rational.py:211 | Equal cross products ⇔ equal rational values, for non-zero denominators. |
| Rationals.Ne | rational.py:218-227 | `!=` raises TypeError for anything but a Rational or an int and otherwise negates `==`. |
| RationalLaws.SumFormula | rational.py:118-119 | The cross-multiplied pair stands for the sum, and its denominator is non-zero. |
| RationalLaws.DifferenceFormula | rational.py:137-138 | The cross-multiplied pair stands for the difference. |
| RationalLaws.ProductFormula | rational.py:162-165 | The pair of products stands for the product. |
| RationalLaws.QuotientFormula | rational.py:192 | The cross-multiplied pair stands for the quotient when the divisor is not zero. |
| RationalLaws.FreshReduce | rational.py:78-107 | A fresh object that is reduced comes back canonical with the same value. With a zero denominator it raises ZeroDivisionError (0/0) or ValueError (n/0). |
| RationalLaws.AddIsSum | rational.py:110-126 | Rational + Rational is the canonical sum. Rational + int is the exact sum, unreduced, with the same denominator. Anything else raises TypeError. |
| RationalLaws.SubIsDifference | rational.py:129-145 | The same for `-`. |
| RationalLaws.MulIsProduct | rational.py:148-179 | Rational * Rational and Rational * int are the canonical product; anything else raises TypeError. |
| RationalLaws.DivIsQuotient | rational.py:182-200 | A zero Rational or int 0 raises ZeroDivisionError. Otherwise the result is the quotient: canonical for a Rational, with denominator `den * k` for an int. Anything else raises TypeError. |
| RationalLaws.EqIsValueEquality | rational.py:203-227 | `==` is equality of the numbers, for a Rational or an int; `!=` is its negation; anything else raises TypeError from both. |
| RationalLaws.NegNegates | rational.py:325-331 | Negation keeps the denominator, negates the value, is an involution and keeps lowest terms. |
| RationalLaws.AbsIsMagnitude | rational.py:349-355 | `abs` gives non-negative fields standing for the absolute value, and is idempotent. |
| RationalLaws.PowerIsPower | rational.py:334-346 | For `e >= 0`, `a ** e` has a non-zero denominator and stands for the e-th power of `a`. |
| RationalLaws.InPlaceAddAgrees | rational.py:230-249 | `+=` with a Rational leaves what `+` returns. A zero product of denominators raises ValueError after the numerator has been written. `+=` with an int is `+` with that int. Anything else raises TypeError and changes nothing. |
| RationalLaws.InPlaceSubAgrees | rational.py:252-272 | `-=` with a Rational leaves what `-` returns; with an int it leaves `-`'s result reduced, the exact difference in lowest terms. |
| RationalLaws.InPlaceMulAgrees | rational.py:275-295 | `*=` leaves what `*` returns, for a Rational and for an int. |
| RationalLaws.InPlaceDivAgrees | rational.py:298-322 | `/=` raises ZeroDivisionError for a zero Rational and ValueError for int 0, both with nothing changed. Otherwise it leaves the reduced quotient. |
| RationalLaws.ExampleSmallFractions | test_rational.py:10-29 | 1/2 + 1/2 = 1/1, 1/2 - 1/4 = 1/4, 1/2 * 1/2 = 1/4. |
| RationalLaws.ExampleSmallQuotients | test_rational.py:31-104 | 1/2 ÷ 1/2 = 1/1. Dividing by 0/1 raises ZeroDivisionError, in place too. -(1/2) = -1/2, abs(-1/2) = 1/2 and (1/2)**2 = 1/4. |
| RationalLaws.ExampleLargeNumbers | test_rational.py:118-149 | The bignum sum, quotients and product of the tests give the expected fields. |
| RationalObjects.Rational.AddInPlace | rational.py:230-249 | The fields end as `InPlaceAdd` of the old ones: the sum of the numbers for a Rational, the numerator `n + k*d` for an int. |
| RationalObjects.Rational.SubInPlace | rational.py:252-272 | The fields end as `InPlaceSub` of the old ones, standing for the difference. |
| RationalObjects.Rational.MulInPlace | rational.py:275-295 | The fields end as `InPlaceMul` of the old ones, standing for the product. |
| RationalObjects.Rational.DivInPlace | rational.py:298-322 | The fields end as `InPlaceDiv` of the old ones: the quotient, or ZeroDivisionError or ValueError with nothing changed for a zero divisor. |
| ComplexLaws.ZeroValue | complex.py:138 | A Rational equals int 0 exactly when its numerator is 0, exactly when it stands for 0. |
| ComplexLaws.ConstructionKeepsOrRounds | complex.py:11-28 | `Complex(a, b)` of two ints holds a/1 and b/1, in lowest terms, standing for `a + bi`. `Complex(r)` of a Rational holds `r` itself and 0/1. `Complex(r, 0)` rounds `r` through a float, or raises ZeroDivisionError if its denominator is 0. |
| ComplexLaws.ConstructionCases | complex.py:11-28 | With one argument the imaginary part is 0/1 and the real part is k/1 for an int, `from_float(x)` for a float and the Rational itself, so the number is the argument on the real axis. A Complex or other object raises TypeError. With two arguments each is converted on its own: an int exactly, a float through `from_float`, a Rational through `float` and back (ZeroDivisionError for a zero denominator), anything else TypeError. The first failing argument decides the error, and a built pair is well formed. |
| ComplexLaws.RebuildRounds | complex.py:26-28 | Two components with non-zero denominators come back as the rounded components, well formed; otherwise ZeroDivisionError. |
| ComplexLaws.SumPartsIsSum | complex.py:80-85 | The exact components of `+` are the complex sum. A scalar is added to the real part only. A float or other object raises TypeError. |
| ComplexLaws.DifferencePartsIsDifference | complex.py:94-99 | The same for `-`. |
| ComplexLaws.ProductRealValue | complex.py:110 | `ac - bd` is the real part of the product, in lowest terms. |
| ComplexLaws.ProductImagValue | complex.py:111 | `ad + bc` is the imaginary part of the product, in lowest terms. |
| ComplexLaws.ComplexProductIsProduct | complex.py:108-111 | The Rational formula is the complex product, both parts canonical. |
| ComplexLaws.ProductPartsIsProduct | complex.py:108-121 | A Complex gives the complex product and an int scales both parts. A Rational raises TypeError, or ZeroDivisionError when its denominator is 0. A float raises TypeError. |
| ComplexLaws.SquaredModulusIsNorm | complex.py:131 | `other.real**2 + other.imag**2` is canonical, stands for `|other|^2`, and is 0 exactly when both parts are 0. |
| ComplexLaws.SquareValue | complex.py:131 | `r ** 2` stands for the square of `r`. |
| ComplexLaws.DotProductValue | complex.py:134 | `ac + bd` in lowest terms. |
| ComplexLaws.CrossProductValue | complex.py:135 | `bc - ad` in lowest terms. |
| ComplexLaws.QuotientRealValue | complex.py:134 | `(ac + bd) / D` is the real part of the textbook quotient. |
| ComplexLaws.QuotientImagValue | complex.py:135 | `(bc - ad) / D` is the imaginary part of the textbook quotient. |
| ComplexLaws.ComplexQuotientIsQuotient | complex.py:130-136 | For a non-zero divisor the quotient is canonical, and multiplied by the divisor it gives the dividend back. |
| ComplexLaws.SelfModulusIsNorm | complex.py:278 | `real*real + imag*imag` is canonical, stands for `|self|^2`, and is 0 exactly when both parts are 0. |
| ComplexLaws.ReciprocalValues | complex.py:281 | `real / D` and `-imag / D` are canonical and stand for those quotients. |
| ComplexLaws.InversePartsIsReciprocal | complex.py:278-281 | Zero raises ValueError; otherwise the components are canonical and multiply `self` to 1. |
| ComplexLaws.NegationPartsNegates | complex.py:289 | Negation negates both parts, is an involution, and `self + (-self)` is 0. |
| ComplexLaws.EqIsValueEquality | complex.py:145-166 | `==` with a Complex compares both parts by value. With a Rational or an int, `==` holds when the number equals that scalar on the real axis. A float or other object raises TypeError. `!=` is value inequality in each of these cases, and raises TypeError with `==`. |
| ComplexLaws.InPlaceAddIsSum | complex.py:168-182 | `+=` leaves the exact components `+` computes (before rounding). A scalar changes only the real part. A float or other object raises TypeError and changes nothing. |
| ComplexLaws.InPlaceSubIsDifference | complex.py:184-198 | The same for `-=`; with an int the real part is additionally reduced. |
| ComplexLaws.InPlaceMulIsProduct | complex.py:200-219 | `*=` with a Complex leaves the complex product computed from the old parts. An int leaves what `*` computes. A float or a Rational scales both parts, although `*` refuses them. Another object raises TypeError. |
| ComplexLaws.InPlaceMulByInt | complex.py:211-217 | `*=` with an int leaves the exact components of `*`. |
| ComplexLaws.InPlaceMulByScalar | complex.py:211-217 | `*=` with a float or Rational standing for `k` finishes normally and scales both parts by `k`, in lowest terms. |
| ComplexLaws.InPlaceDivIsQuotient | complex.py:221-245 | `/=` by a zero Complex raises ZeroDivisionError, and by a zero scalar ValueError, both changing nothing. A non-zero Complex or Rational leaves the exact quotient; a non-zero int divides both parts. A non-zero float or other object raises TypeError. |
| Complexes.Ne | complex.py:159-166 | Negates `==` and propagates its error; what `!=` means by value, for a Complex, a Rational and an int, is stated by ComplexLaws.EqIsValueEquality. |
| OperatorLaws.AddRounds | complex.py:73-85 | `+` returns the rounded complex sum (real part only for a scalar); a float or other object raises TypeError. |
| OperatorLaws.SubRounds | complex.py:87-99 | `-` returns the rounded difference; a float or other object raises TypeError. |
| OperatorLaws.MulRounds | complex.py:101-121 | `*` returns the rounded product for a Complex or an int. A Rational raises TypeError, or ZeroDivisionError with a zero denominator; a float or other object raises TypeError. |
| OperatorLaws.DivRounds | complex.py:123-142 | A zero divisor, Complex or scalar, raises ZeroDivisionError. A non-zero Complex gives the rounded quotient, which times the divisor is the dividend. A non-zero int or Rational divides both parts. A non-zero float or other object raises TypeError. |
| OperatorLaws.NegRounds | complex.py:283-289 | `-self` is the rounded negation. |
| OperatorLaws.InverseRounds | complex.py:272-281 | `inverse()` raises ValueError for zero; otherwise it is the rounded reciprocal, well formed. |
| PowerLaws.BitLength | complex.py:263-269 | The number of turns of the loop: `2^(k-1) <= n < 2^k`. |
| PowerLaws.ResultExponentIs | complex.py:263-269 | Started at `result = z^a`, `base = z^b`, the loop heads `result` to `z^(a + m*b)`. |
| PowerLaws.BaseExponentIs | complex.py:263-269 | The base ends at `z^(b * 2^k)`, `k` the bit length of `m`. |
| PowerLaws.TurnMultipliesPowers | complex.py:265-268 | One turn multiplies `result` by `base` on odd `m` and squares `base`, keeping both powers of `z`. |
| PowerLaws.SquareAndMultiplyPowers | complex.py:263-269 | On well-formed powers of `z` the loop finishes and leaves the predicted powers in `result` and `base`. |
| PowerLaws.MalformedLoopRaises | complex.py:263-269 | With a malformed `base` the first turn raises, and `base` is unchanged. |
| PowerLaws.LoopResult | complex.py:262-270 | `c ** n` for `n >= 2` returns `c^n`, well formed; a malformed receiver makes it raise. |
| PowerLaws.LoopReceiver | complex.py:262-270 | `c ** n` for `n >= 2` leaves the receiver at `c^(2^k)`, `k` the bit length of `n`. |
| PowerLaws.StartPowers | complex.py:262-263 | The loop starts from `z^0` and `z^1`. |
| PowerLaws.SquaringSquaresReceiverTwice | test_complex.py:56-63 | After `c ** 2` the receiver holds the square of the returned value. |
| PowerLaws.NegativePower | complex.py:256-257 | `c ** -n` raises ValueError for zero; otherwise it is the inverse for `-1` and the n-th power of the inverse from `-2` on. |
| PowerLaws.PowExample | test_complex.py:56-59 | For `c = 0.5 + 0.75i`, `c ** 2` is `-0.3125 + 0.75i`. |
| ComplexObjects.Complex.constructor | complex.py:11-28 | An object holding the given components. |
| ComplexObjects.Complex.AddInPlace | complex.py:168-182 | The components end as `InPlaceAdd` of the old ones: the complex sum, or TypeError with nothing changed. |
| ComplexObjects.Complex.SubInPlace | complex.py:184-198 | The components end as `InPlaceSub` of the old ones: the complex difference, or TypeError with nothing changed. |
| ComplexObjects.Complex.MulInPlace | complex.py:200-219 | The components end as `InPlaceMul` of the old ones: the complex product, or the scaled parts for an int or a Rational. |
| ComplexObjects.Complex.DivInPlace | complex.py:221-245 | The components end as `InPlaceDiv` of the old ones. A zero Complex raises ZeroDivisionError and a zero scalar ValueError. A non-zero Complex leaves the quotient, which times the divisor is the old value. |
| ComplexObjects.Complex.Inverse | complex.py:272-281 | A new object holding `inverse()`'s components, or ValueError for zero. |
| ComplexObjects.Complex.PowTurn | complex.py:265-268 | One turn of the loop on two distinct objects follows `SquareAndMultiply`. |
| ComplexObjects.Complex.Pow | complex.py:247-270 | The returned value and the receiver are as `Power` says. Exponent 1 returns the receiver itself. From 2 on the result is `c^n` and the receiver ends at `c^(2^k)`. |

## Left out

- `float(r)` (rational.py:369-377) and `Rational.from_float` (rational.py:379-388) are parameters (`Complexes.Floats`). Double rounding and `Fraction.limit_denominator` are not modelled; the model relies only on `from_float` returning a positive denominator. A float operand is a real number, so `from_float` of an infinity or a NaN (OverflowError or ValueError inside `Fraction`) cannot arise.
- Complexes.Rebuild: `float(r)` is integer true division (rational.py:377), which raises OverflowError when the quotient lies beyond the double range. In the model `toFloat` is total and `PyError` has no OverflowError. So every result rebuilt through the two-argument constructor (complex.py:27-28) is Ok in the model where Python may raise OverflowError. That covers `Complexes.ConstructTwo` and OperatorLaws.AddRounds, SubRounds, MulRounds, DivRounds, NegRounds and InverseRounds. For example, `Complex(10**400, 0) + 1` raises OverflowError in Python.
- OperatorLaws.MulRounds: `Complex * Rational` converts the numerator with `float(other.numerator)` (complex.py:118). For a numerator beyond the double range that raises OverflowError, where the model raises TypeError.
- `__str__`, `__repr__` and `print_fraction` of both classes, and `Complex.abs` and `Complex.arg`: they format text or compute in floating point.
- Setters given a Rational or a float: the components of a Complex are modelled as values, so aliasing between Rational objects is not modelled. A Rational shared between two Complex objects, or one standing in a Rational's own fields, is out. So are the branches of `reduce` and the Rational operators that read `.numerator` of a Rational-valued field.
- ComplexObjects.Complex.constructor: `Complex(r)` stores the caller's Rational object itself (complex.py:22), so in Python a later `c += 1` also changes the caller's `r`; the model copies the value.
- ComplexObjects.Complex.MulInPlace and ComplexObjects.Complex.DivInPlace: with the receiver's own real part as operand, `c *= c.real` and `c /= c.real` (complex.py:215-216, 241-242) first update `real` in place and then scale `imag` by that same, already updated object. So Python's `c /= c.real` leaves `imag` unchanged and `c *= c.real` multiplies it by the square of the old real part. The model scales `imag` by the old real part in both cases.
- `Rational ** e` for `e < 0` computes `int ** negative`, a float, and stores it in the fields; only `e >= 0` is modelled.
- bool as an int operand is not distinguished from int.
- The unittest suites are used only as sources of expected values (the `Example…` lemmas and `PowExample`).
- ComplexObjects.Complex.constructor: also takes the two components directly. What `Complex(x)` and `Complex(x, y)` make of their arguments is modelled by the functions `Complexes.ConstructOne` and `Complexes.ConstructTwo`.
- PowerLaws.PowExample: states the value of `c ** 2` as an exact pair of reals for any receiver standing for `0.5 + 0.75i`, not the float-rounded text the test compares.
- The ValueError branch of `/=` for a zero squared modulus (complex.py:231-233) is modelled but cannot be reached after the check of both parts; `ComplexLaws.InPlaceDivIsQuotient` states only the reachable cases.
