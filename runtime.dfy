/** The pieces of the Python runtime that the two numeric types rely on:
    the exception kinds they raise, the run-time type dispatch on the right
    operand, the value of a Rational's two integer fields, and Python's
    flooring `//` and `%` on integers. */
module Runtime {

  /** The three exception classes the numeric types raise, kept distinct. */
  datatype PyError = ZeroDivisionError | ValueError | TypeError

  /** The result of an expression that either yields a value or raises. */
  datatype Result<+T> = Ok(value: T) | Err(error: PyError) {
    predicate IsFailure() { Err? }
    function PropagateFailure<U>(): Result<U>
      requires Err?
    {
      Err(error)
    }
    function Extract(): T
      requires Ok?
    {
      value
    }
  }

  /** How a statement that mutates an object ended: normally, or by raising. */
  datatype Outcome = Done | Raised(error: PyError)

  /** The two integer fields of a Rational object: numerator and denominator.
      Nothing forces the denominator to be non-zero: the constructor stores
      whatever it is given. */
  datatype Rat = Rat(num: int, den: int)

  /** The two components of a Complex object. */
  datatype Cpx = Cpx(re: Rat, im: Rat)

  /** The run-time type of a right operand, as the operators test it with
      isinstance. A float is represented by the exact real number that the
      double denotes. */
  datatype Operand =
    | IntArg(i: int)
    | FloatArg(x: real)
    | RatArg(r: Rat)
    | ComplexArg(c: Cpx)
    | OtherArg

  function Abs(x: int): (r: nat)
    ensures r == x || r == -x
  {
    if x < 0 then -x else x
  }

  /** Python's `a % b`: the remainder takes the sign of the divisor. */
  function PyMod(a: int, b: int): (r: int)
    requires b != 0
    ensures b > 0 ==> 0 <= r < b
    ensures b < 0 ==> b < r <= 0
  {
    if b > 0 || a % b == 0 then a % b else a % b + b
  }

  /** Python's `a // b`: the quotient rounded towards minus infinity. */
  function PyFloorDiv(a: int, b: int): (q: int)
    requires b != 0
    ensures a == q * b + PyMod(a, b)
  {
    if b > 0 || a % b == 0 then a / b else a / b - 1
  }

  /** `b ** e` on Python integers, for a non-negative exponent. */
  function Pow(b: int, e: nat): int
  {
    if e == 0 then 1 else b * Pow(b, e - 1)
  }

  /** `k` divides `x`; zero divides only zero. */
  predicate Divides(k: int, x: int)
  {
    if k == 0 then x == 0 else x % k == 0
  }
}
