/** The binary-operator evaluator `compute` and the C++ arithmetic it relies on. */
module Arith {
  import opened Results
  import opened Operators

  function Abs(x: int): nat {
    if x < 0 then -x else x
  }

  /** C++ `a / b` on integers: the quotient truncated toward zero (Dafny's own `/` is Euclidean). It leaves
      a remainder smaller than the divisor that takes the sign of the dividend, which is what truncation
      toward zero means and pins the quotient down uniquely. */
  function TruncDiv(a: int, b: int): (q: int)
    requires b != 0
    ensures Abs(a - q * b) < Abs(b)
    ensures a - q * b == 0 || (a - q * b < 0) == (a < 0)
    ensures Abs(q) * Abs(b) <= Abs(a)
  {
    var q := Truncated(a, b);
    TruncatedRemainder(a, b);
    q
  }

  /** The quotient of the magnitudes, with the sign of the exact quotient. */
  function Truncated(a: int, b: int): int
    requires b != 0
  {
    var m := Abs(a) / Abs(b);
    if (a < 0) == (b < 0) then m else -m
  }

  lemma TruncatedRemainder(a: int, b: int)
    requires b != 0
    ensures Abs(a - Truncated(a, b) * b) < Abs(b)
    ensures a - Truncated(a, b) * b == 0 || (a - Truncated(a, b) * b < 0) == (a < 0)
    ensures Abs(Truncated(a, b)) * Abs(b) <= Abs(a)
  {
    var x, y := Abs(a), Abs(b);
    assert x == (x / y) * y + x % y && x % y < y;
    SignedRemainder(a, b, Truncated(a, b), x / y, x % y);
  }

  /** The remainder facts for a quotient built from |a| == m * |b| + rr. */
  lemma SignedRemainder(a: int, b: int, q: int, m: nat, rr: nat)
    requires b != 0 && Abs(a) == m * Abs(b) + rr && rr < Abs(b)
    requires q == if (a < 0) == (b < 0) then m else -(m as int)
    ensures Abs(a - q * b) < Abs(b)
    ensures a - q * b == 0 || (a - q * b < 0) == (a < 0)
    ensures Abs(q) * Abs(b) <= Abs(a)
  {
    SignedProduct(q, b, m, Abs(b));
    assert q * b == if a < 0 then -(m * Abs(b)) else m * Abs(b);
  }

  /** The product of two signed numbers, from the product of their magnitudes. */
  lemma SignedProduct(x: int, y: int, ax: nat, ay: nat)
    requires Abs(x) == ax && Abs(y) == ay
    ensures x * y == (if (x < 0) == (y < 0) || x == 0 then ax * ay else -(ax * ay))
  {
    if x < 0 && y >= 0 {
      assert x * y == -(ax * y);
    } else if x >= 0 && y < 0 {
      assert x * y == -(x * ay);
    } else if x < 0 && y < 0 {
      assert x * y == (-x) * (-y);
    }
  }

  /** Where both operands are non-negative, truncation and Euclidean division agree ... */
  lemma TruncDivNonNegative(a: int, b: int)
    requires a >= 0 && b > 0
    ensures TruncDiv(a, b) == a / b
  {
  }

  /** ... but not for a negative dividend: C++ gives -7 / 2 == -3 where Dafny gives -4. */
  lemma TruncDivNegative()
    ensures TruncDiv(-7, 2) == -3 && -7 / 2 == -4
  {
  }

  /** `pow(a, n)` for a non-negative integer exponent. */
  function Pow(a: int, n: nat): int
    decreases n
  {
    if n == 0 then 1 else a * Pow(a, n - 1)
  }

  lemma {:induction false} PowAdd(a: int, m: nat, n: nat)
    ensures Pow(a, m + n) == Pow(a, m) * Pow(a, n)
    decreases m
  {
    if m > 0 {
      PowAdd(a, m - 1, n);
      assert Pow(a, m + n) == a * Pow(a, m - 1 + n);
    }
  }

  /** Raising a power again multiplies the exponents: (a^m)^n == a^(m*n). */
  lemma {:induction false} PowPow(a: int, m: nat, n: nat)
    ensures Pow(Pow(a, m), n) == Pow(a, m * n)
    decreases n
  {
    if n > 0 {
      PowPow(a, m, n - 1);
      PowAdd(a, m, m * (n - 1));
      assert m + m * (n - 1) == m * n;
    }
  }

  lemma {:induction false} PowOne(n: nat)
    ensures Pow(1, n) == 1
  {
    if n > 0 {
      PowOne(n - 1);
    }
  }

  lemma {:induction false} PowMinusOne(n: nat)
    ensures Pow(-1, n) == if n % 2 == 0 then 1 else -1
  {
    if n > 0 {
      PowMinusOne(n - 1);
    }
  }

  lemma MagnitudeProduct(x: int, y: int)
    requires Abs(x) >= 2 && Abs(y) >= 2
    ensures Abs(x * y) >= 2
  {
    var p, q := Abs(x), Abs(y);
    SignedProduct(x, y, p, q);
    assert p * q == 2 * q + (p - 2) * q;
    assert (p - 2) * q >= 0;
  }

  /** A base of magnitude 2 or more raised to a positive power has magnitude 2 or more. */
  lemma {:induction false} PowMagnitude(a: int, n: nat)
    requires Abs(a) >= 2 && n >= 1
    ensures Abs(Pow(a, n)) >= 2
  {
    if n > 1 {
      PowMagnitude(a, n - 1);
      MagnitudeProduct(a, Pow(a, n - 1));
    }
  }

  /** `pow(a, b)` converted back to `int`. A non-negative exponent gives the integer power; for a negative
      one the double 1 / a^-b is truncated toward zero, and 0 to a negative power is the pole of `pow`,
      an infinite double that no `int` represents. */
  function PowToInt(a: int, b: int): (r: Result<int>)
    ensures r.Err? <==> a == 0 && b < 0
    ensures r.Err? ==> r.error == ZeroToNegativePower
    ensures b >= 0 ==> r == Ok(Pow(a, b))
    ensures b < 0 && r.Ok? ==> -1 <= r.value <= 1
  {
    if b >= 0 then Ok(Pow(a, b))
    else if a == 0 then Err(ZeroToNegativePower)
    else if a == 1 then Ok(1)
    else if a == -1 then Ok(if b % 2 == 0 then 1 else -1)
    else Ok(0)
  }

  /** For a negative exponent and a non-zero base, the result is the reciprocal power truncated toward
      zero, as the conversion from `double` to `int` does. */
  lemma NegativePowerTruncates(a: int, b: int)
    requires b < 0 && a != 0
    ensures Pow(a, -b) != 0 && PowToInt(a, b) == Ok(TruncDiv(1, Pow(a, -b)))
  {
    var p := Pow(a, -b);
    if a == 1 {
      PowOne(-b);
      assert TruncDiv(1, p) == 1;
    } else if a == -1 {
      PowMinusOne(-b);
      assert (-b) % 2 == 0 <==> b % 2 == 0;
      assert TruncDiv(1, p) == p;
    } else {
      PowMagnitude(a, -b);
      assert Abs(1) / Abs(p) == 0;
      assert TruncDiv(1, p) == 0;
    }
  }

  /** `compute(op, a, b)`: apply the operator named by the first character of `op`. */
  function Compute(op: string, a: int, b: int): (r: Result<int>)
    ensures r == Err(InvalidOperator) <==> !IsOperatorChar(First(op))
    ensures r.Ok? <==> IsOperatorChar(First(op)) && !(First(op) == '/' && b == 0) && !(First(op) == '^' && a == 0 && b < 0)
    ensures First(op) == '^' && b >= 0 ==> r == Ok(Pow(a, b))
  {
    match First(op)
    case '+' => Ok(a + b)
    case '-' => Ok(a - b)
    case '*' => Ok(a * b)
    case '/' => if b == 0 then Err(DivisionByZero) else Ok(TruncDiv(a, b))
    case '^' => PowToInt(a, b)
    case _ => Err(InvalidOperator)
  }

  /** Every character the precedence table ranks at 1 or more is one `compute` can apply. */
  lemma RankedOperatorsComputable(op: string, a: int, b: int)
    requires Prec(First(op)) >= 1
    ensures Compute(op, a, b) != Err(InvalidOperator)
    ensures Compute(op, a, b).Err? ==> Compute(op, a, b) in {Err(DivisionByZero), Err(ZeroToNegativePower)}
  {
    PrecedenceLevels(First(op));
  }

  /** Only the first character of the operator token matters: "+5" adds like "+". */
  lemma ComputeReadsFirstChar(op1: string, op2: string, a: int, b: int)
    requires First(op1) == First(op2)
    ensures Compute(op1, a, b) == Compute(op2, a, b)
  {
  }
}
