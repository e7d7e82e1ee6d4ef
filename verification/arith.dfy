/** Exact-real stand-ins for the decimal arithmetic of the three `minicalc`
    variants: truncation by `int()`, the factorial product loop, division and
    the decimal power operator. The 28-digit context precision is not
    modelled: results are exact. */
module Arith {
  import opened Results

  predicate IsIntegral(x: real) {
    x == x.Floor as real
  }

  /** `int(x)`: truncation toward zero. */
  function Trunc(x: real): (n: int)
    ensures 0.0 <= x ==> n == x.Floor
    ensures 0.0 <= x ==> n as real <= x < n as real + 1.0
    ensures x < 0.0 ==> n as real - 1.0 < x <= n as real
  {
    if x >= 0.0 then x.Floor else -((-x).Floor)
  }

  /** Truncation leaves a number unchanged exactly when it is integral. */
  lemma TruncIntegral(x: real)
    ensures Trunc(x) as real == x <==> IsIntegral(x)
  {
    if x < 0.0 {
      var m := (-x).Floor;
      if IsIntegral(x) {
        var f := x.Floor;
        assert -x == (-f) as real;
        assert m == -f;
      } else if (-m) as real == x {
        assert x.Floor == -m;
      }
    }
  }

  /** The product 1 * 2 * ... * n. */
  function Fact(n: nat): (r: nat)
    ensures r >= 1
  {
    if n == 0 then 1 else n * Fact(n - 1)
  }

  /** The loop `result = 1; for i in range(1, n + 1): result *= i`, which
      multiplies upward, computes the factorial. */
  method FactorialLoop(n: nat) returns (result: nat)
    ensures result == Fact(n)
  {
    result := 1;
    var i := 1;
    while i <= n
      invariant 1 <= i <= n + 1
      invariant result == Fact(i - 1)
    {
      result := result * i;
      i := i + 1;
    }
  }

  /** Factorial after truncation, rejecting a negative truncated value
      (`Factorial.execute` of the class-based variants). */
  function TruncFactorial(x: real): (r: Result<real>)
    ensures r.Ok? <==> x > -1.0
    ensures r.Err? ==> r.error == NegativeFactorial
    ensures 0.0 <= x ==> r == Ok(Fact(x.Floor) as real)
    ensures -1.0 < x < 0.0 ==> r == Ok(1.0)
  {
    var n := Trunc(x);
    if n < 0 then Err(NegativeFactorial) else Ok(Fact(n) as real)
  }

  /** Factorial that rejects a negative operand before truncating it
      (`factorial` of the function-based variant). */
  function CheckedFactorial(x: real): (r: Result<real>)
    ensures r.Ok? <==> x >= 0.0
    ensures r.Err? ==> r.error == NegativeFactorial
    ensures r.Ok? ==> r == TruncFactorial(x)
  {
    if x < 0.0 then Err(NegativeFactorial) else Ok(Fact(Trunc(x)) as real)
  }

  /** `left / right` with its zero check: the quotient is the number that
      multiplied by the divisor gives the dividend. */
  function Quotient(a: real, b: real): (r: Result<real>)
    ensures r.Ok? <==> b != 0.0
    ensures r.Err? ==> r.error == DivisionByZero
    ensures r.Ok? ==> r.value * b == a
  {
    if b == 0.0 then Err(DivisionByZero) else Ok(a / b)
  }

  function PowNat(b: real, n: nat): real {
    if n == 0 then 1.0 else b * PowNat(b, n - 1)
  }

  /** The decimal `**` on the values the model represents: an integral
      exponent gives the repeated product (or its reciprocal); `0 ** 0` and a
      negative base with a fractional exponent are invalid operations. A zero
      base with a negative exponent (an infinity) and a positive base with a
      fractional exponent (rounded to the context precision, except where the
      root happens to be exact, as in `4 ** 0.5`) fall outside the model. */
  function DecimalPower(b: real, e: real): (r: Result<real>)
    ensures IsIntegral(e) && e >= 0.0 && !(b == 0.0 && e == 0.0) ==> r == Ok(PowNat(b, e.Floor))
    ensures IsIntegral(e) && e < 0.0 && b != 0.0 ==> r.Ok? && r.value * PowNat(b, -e.Floor) == 1.0
    ensures b == 0.0 && e == 0.0 ==> r == Err(InvalidPower)
    ensures b < 0.0 && !IsIntegral(e) ==> r == Err(InvalidPower)
    ensures r.Err? ==> r.error == InvalidPower || r.error == OutsideModel
  {
    if IsIntegral(e) then
      var n := e.Floor;
      if n >= 0 then
        if b == 0.0 && n == 0 then Err(InvalidPower) else Ok(PowNat(b, n))
      else if b == 0.0 then Err(OutsideModel)
      else PowNatNonZero(b, -n); Ok(1.0 / PowNat(b, -n))
    else if b < 0.0 then Err(InvalidPower)
    else if b == 0.0 then (if e > 0.0 then Ok(0.0) else Err(OutsideModel))
    else Err(OutsideModel)
  }

  lemma {:induction false} PowNatNonZero(b: real, n: nat)
    requires b != 0.0
    ensures PowNat(b, n) != 0.0
  {
    if n > 0 {
      PowNatNonZero(b, n - 1);
    }
  }
}
