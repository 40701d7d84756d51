/** The greatest-common-divisor loop that Rational.reduce runs
    (rational.py:84-87), with Python's flooring `%`, and what it computes. */
module Euclid {
  import opened Runtime

  /** The value the loop `while b: a, b = b, a % b` leaves in `a`. */
  function PyGcd(a: int, b: int): int
    decreases Abs(b)
  {
    if b == 0 then a else PyGcd(b, PyMod(a, b))
  }

  /** A multiple of `k` is divisible by `k`. */
  lemma MultipleDivisible(k: int, m: int)
    ensures Divides(k, k * m)
  {
    if k != 0 {
      var z := k * m;
      var t := m - z / k;
      assert z % k == k * t;
      if t > 0 {
        assert false;
      } else if t < 0 {
        assert false;
      }
    }
  }

  /** A divisible number is `k` times its quotient. */
  lemma DividesQuotient(k: int, x: int)
    requires k != 0 && Divides(k, x)
    ensures x == k * (x / k)
  {
  }

  /** Divisibility is closed under integer linear combinations. */
  lemma DividesCombination(k: int, x: int, y: int, p: int, q: int)
    requires Divides(k, x) && Divides(k, y)
    ensures Divides(k, p * x + q * y)
  {
    if k != 0 {
      DividesQuotient(k, x);
      DividesQuotient(k, y);
      var m := p * (x / k) + q * (y / k);
      assert p * x + q * y == k * m by {
        calc {
          p * x + q * y;
          p * (k * (x / k)) + q * (k * (y / k));
          k * (p * (x / k)) + k * (q * (y / k));
          k * m;
        }
      }
      MultipleDivisible(k, m);
    }
  }

  /** For a non-zero `b` the loop's result is non-zero and has the sign of
      `b`, because every remainder Python's `%` produces has the sign of its
      divisor; for `b == 0` it is `a` itself. */
  lemma {:induction false} GcdSign(a: int, b: int)
    ensures b == 0 ==> PyGcd(a, b) == a
    ensures b > 0 ==> PyGcd(a, b) > 0
    ensures b < 0 ==> PyGcd(a, b) < 0
    decreases Abs(b)
  {
    if b != 0 {
      var r := PyMod(a, b);
      GcdSign(b, r);
    }
  }

  /** The loop's result divides both arguments. */
  lemma {:induction false} GcdDivides(a: int, b: int)
    ensures Divides(PyGcd(a, b), a) && Divides(PyGcd(a, b), b)
    decreases Abs(b)
  {
    if b == 0 {
      if a != 0 {
        MultipleDivisible(a, 1);
        MultipleDivisible(a, 0);
      }
    } else {
      var r := PyMod(a, b);
      var q := PyFloorDiv(a, b);
      GcdDivides(b, r);
      assert a == q * b + 1 * r;
      DividesCombination(PyGcd(a, b), b, r, q, 1);
    }
  }

  /** Every common divisor of the arguments divides the loop's result. */
  lemma {:induction false} GcdGreatest(a: int, b: int, k: int)
    requires Divides(k, a) && Divides(k, b)
    ensures Divides(k, PyGcd(a, b))
    decreases Abs(b)
  {
    if b != 0 {
      var r := PyMod(a, b);
      var q := PyFloorDiv(a, b);
      assert r == 1 * a + (-q) * b;
      DividesCombination(k, a, b, 1, -q);
      GcdGreatest(b, r, k);
    }
  }
}
