/**
 Exact decimals: an arbitrary-precision coefficient divided by a power of ten.

 `Value` is the number a decimal denotes. Every operation of the ledger is related to it, so that
 the rest of the model can reason about amounts of money as real numbers, without rounding.
 */
module ExactDecimals {
  import opened Basics

  datatype ExactDecimal = ExactDecimal(coefficient: int, scale: nat)

  const ZERO := ExactDecimal(0, 0)

  /** 10 to the power e. */
  function Pow10(e: nat): (p: int)
    ensures p >= 1
  {
    if e == 0 then 1 else 10 * Pow10(e - 1)
  }

  /** base to the power e. */
  function Pow(base: int, e: nat): int {
    if e == 0 then 1 else base * Pow(base, e - 1)
  }

  /** The number that coefficient / 10^scale denotes. */
  ghost function Scaled(coefficient: int, scale: nat): real {
    if scale == 0 then coefficient as real else Scaled(coefficient, scale - 1) / 10.0
  }

  ghost function Value(d: ExactDecimal): real {
    Scaled(d.coefficient, d.scale)
  }

  ghost function Abs(x: real): real {
    if x < 0.0 then -x else x
  }

  // ---------------------------------------------------------------------------------------------
  // Scaled is linear, and invariant under adding trailing zeros
  // ---------------------------------------------------------------------------------------------

  lemma {:induction false} ScaledLinear(a: int, b: int, s: nat)
    ensures Scaled(a + b, s) == Scaled(a, s) + Scaled(b, s)
    ensures Scaled(a - b, s) == Scaled(a, s) - Scaled(b, s)
    ensures Scaled(10 * a, s) == 10.0 * Scaled(a, s)
  {
    if s > 0 { ScaledLinear(a, b, s - 1); }
  }

  lemma {:induction false} ScaledZero(s: nat)
    ensures Scaled(0, s) == 0.0
  {
    if s > 0 { ScaledZero(s - 1); }
  }

  lemma {:induction false} ScaledMonotone(a: int, b: int, s: nat)
    ensures a < b <==> Scaled(a, s) < Scaled(b, s)
    ensures a == b <==> Scaled(a, s) == Scaled(b, s)
  {
    if s > 0 { ScaledMonotone(a, b, s - 1); }
  }

  /** Multiplying by 10^k and moving the point by k places changes nothing. */
  lemma {:induction false} ScaledShift(a: int, s: nat, k: nat)
    ensures Scaled(a * Pow10(k), s + k) == Scaled(a, s)
  {
    if k > 0 {
      var b := a * Pow10(k - 1);
      assert a * Pow10(k) == 10 * b;
      ScaledLinear(b, 0, s + k - 1);
      ScaledShift(a, s, k - 1);
    }
  }

  lemma {:induction false} ScaledProduct(a: int, s: nat, b: int, t: nat)
    ensures Scaled(a * b, s + t) == Scaled(a, s) * Scaled(b, t)
    decreases s + t
  {
    if s > 0 {
      ScaledProduct(a, s - 1, b, t);
    } else if t > 0 {
      ScaledProduct(a, s, b, t - 1);
    } else {
      assert (a * b) as real == (a as real) * (b as real);
    }
  }

  // ---------------------------------------------------------------------------------------------
  // Normal form
  // ---------------------------------------------------------------------------------------------

  /** No trailing zero after the decimal point. */
  predicate IsNormal(d: ExactDecimal) {
    d.scale == 0 || d.coefficient % 10 != 0
  }

  /** What normalizeExactDecimal returns: trailing zeros after the point are dropped. */
  function Normalize(d: ExactDecimal): (r: ExactDecimal)
    ensures IsNormal(r)
    ensures Value(r) == Value(d)
    ensures r.scale <= d.scale
    decreases d.scale
  {
    if d.scale > 0 && d.coefficient % 10 == 0 then
      ScaledLinear(d.coefficient / 10, 0, d.scale - 1);
      Normalize(ExactDecimal(d.coefficient / 10, d.scale - 1))
    else d
  }

  /** Each number has one normal form. */
  lemma NormalFormUnique(a: ExactDecimal, b: ExactDecimal)
    requires IsNormal(a) && IsNormal(b)
    requires Value(a) == Value(b)
    ensures a == b
    decreases a.scale > b.scale
  {
    if a.scale > b.scale {
      NormalFormUnique(b, a);
    } else {
      var k := b.scale - a.scale;
      ScaledShift(a.coefficient, a.scale, k);
      ScaledMonotone(a.coefficient * Pow10(k), b.coefficient, b.scale);
      assert k > 0 ==> a.coefficient * Pow10(k) == 10 * (a.coefficient * Pow10(k - 1));
    }
  }

  /** Equal numbers normalize to the same decimal, and only those. */
  lemma NormalizeCanonical(a: ExactDecimal, b: ExactDecimal)
    ensures Normalize(a) == Normalize(b) <==> Value(a) == Value(b)
  {
    if Value(a) == Value(b) {
      NormalFormUnique(Normalize(a), Normalize(b));
    }
  }

  // The source divides with BigInt's operators, which truncate toward zero.

  function TruncatedQuotient(a: int, b: int): int
    requires b != 0
  {
    if a >= 0 then a / b else -((-a) / b)
  }

  function TruncatedRemainder(a: int, b: int): int
    requires b != 0
  {
    if a >= 0 then a % b else -((-a) % b)
  }

  /** Truncated division by a divisor is exact, and its remainder tells divisibility. */
  lemma TruncatedExact(a: int, b: int)
    requires b > 0
    ensures TruncatedRemainder(a, b) == 0 <==> a % b == 0
    ensures a % b == 0 ==> TruncatedQuotient(a, b) == a / b && a == b * (a / b)
  {
    if a < 0 {
      var q := (-a) / b;
      assert -a == b * q + (-a) % b;
      if (-a) % b == 0 {
        assert a == b * (-q) + 0;
        DivModUnique(a, b, -q, 0);
      } else if a % b == 0 {
        assert -a == b * (-(a / b));
        DivModUnique(-a, b, -(a / b), 0);
      }
    }
  }

  lemma DivModUnique(a: int, b: int, q: int, r: int)
    requires b > 0 && a == b * q + r && 0 <= r < b
    ensures a / b == q && a % b == r
  {
    var d := a / b - q;
    assert a == b * (a / b) + a % b;
    assert b * d == r - a % b by { assert b * d == b * (a / b) - b * q; }
  }

  /** normalizeExactDecimal strips one zero a round. */
  method NormalizeExactDecimal(value: ExactDecimal) returns (r: ExactDecimal)
    ensures r == Normalize(value)
  {
    var coefficient := value.coefficient;
    var scale := value.scale;
    while scale > 0 && TruncatedRemainder(coefficient, 10) == 0
      invariant 0 <= scale
      invariant Normalize(ExactDecimal(coefficient, scale)) == Normalize(value)
    {
      TruncatedExact(coefficient, 10);
      coefficient := TruncatedQuotient(coefficient, 10);
      scale := scale - 1;
    }
    TruncatedExact(coefficient, 10);
    r := ExactDecimal(coefficient, scale);
  }

  // ---------------------------------------------------------------------------------------------
  // Ring operations and order
  // ---------------------------------------------------------------------------------------------

  /** The coefficient of d when written with a scale of at least its own. */
  function Rescaled(d: ExactDecimal, scale: nat): (c: int)
    requires d.scale <= scale
    ensures Scaled(c, scale) == Value(d)
  {
    ScaledShift(d.coefficient, d.scale, scale - d.scale);
    d.coefficient * Pow10(scale - d.scale)
  }

  function Add(left: ExactDecimal, right: ExactDecimal): (r: ExactDecimal)
    ensures Value(r) == Value(left) + Value(right)
    ensures IsNormal(r)
  {
    var scale := Max(left.scale, right.scale);
    ScaledLinear(Rescaled(left, scale), Rescaled(right, scale), scale);
    Normalize(ExactDecimal(Rescaled(left, scale) + Rescaled(right, scale), scale))
  }

  function Subtract(left: ExactDecimal, right: ExactDecimal): (r: ExactDecimal)
    ensures Value(r) == Value(left) - Value(right)
    ensures IsNormal(r)
  {
    var scale := Max(left.scale, right.scale);
    ScaledLinear(Rescaled(left, scale), Rescaled(right, scale), scale);
    Normalize(ExactDecimal(Rescaled(left, scale) - Rescaled(right, scale), scale))
  }

  function Multiply(left: ExactDecimal, right: ExactDecimal): (r: ExactDecimal)
    ensures Value(r) == Value(left) * Value(right)
    ensures IsNormal(r)
  {
    ScaledProduct(left.coefficient, left.scale, right.coefficient, right.scale);
    Normalize(ExactDecimal(left.coefficient * right.coefficient, left.scale + right.scale))
  }

  function Compare(left: ExactDecimal, right: ExactDecimal): (r: int)
    ensures r == -1 <==> Value(left) < Value(right)
    ensures r == 0 <==> Value(left) == Value(right)
    ensures r == 1 <==> Value(left) > Value(right)
  {
    var scale := Max(left.scale, right.scale);
    ScaledMonotone(Rescaled(left, scale), Rescaled(right, scale), scale);
    ScaledMonotone(Rescaled(right, scale), Rescaled(left, scale), scale);
    if Rescaled(left, scale) < Rescaled(right, scale) then -1
    else if Rescaled(left, scale) > Rescaled(right, scale) then 1
    else 0
  }

  function AbsDecimal(d: ExactDecimal): (r: ExactDecimal)
    ensures Value(r) == Abs(Value(d))
    ensures IsNormal(d) ==> IsNormal(r)
  {
    ScaledZero(d.scale);
    ScaledMonotone(d.coefficient, 0, d.scale);
    ScaledLinear(0, d.coefficient, d.scale);
    if d.coefficient < 0 then
      TruncatedExact(d.coefficient, 10);
      ExactDecimal(-d.coefficient, d.scale)
    else d
  }

  /** The sign of a decimal is the sign of its coefficient. */
  lemma SignOfValue(d: ExactDecimal)
    ensures Value(d) < 0.0 <==> d.coefficient < 0
    ensures Value(d) == 0.0 <==> d.coefficient == 0
  {
    ScaledZero(d.scale);
    ScaledMonotone(d.coefficient, 0, d.scale);
  }
}
