/**
 Exact division of decimals: it returns the quotient or fails, and it fails only when no finite
 decimal is the quotient. The specification, `Quotient`, does not mention how the quotient is found.
 */
module ExactDivision {
  import opened Basics
  import opened ExactDecimals

  ghost predicate IsQuotient(q: ExactDecimal, left: ExactDecimal, right: ExactDecimal) {
    Value(q) * Value(right) == Value(left)
  }

  /** The normal decimal q with q * right == left, if right is not zero and there is such a q. */
  ghost function Quotient(left: ExactDecimal, right: ExactDecimal): (r: Option<ExactDecimal>)
    ensures r.Some? ==> IsNormal(r.value) && IsQuotient(r.value, left, right)
    ensures r.None? && right.coefficient != 0 ==> forall q :: !IsQuotient(q, left, right)
  {
    if right.coefficient != 0 && exists q :: IsQuotient(q, left, right) then
      var q :| IsQuotient(q, left, right);
      Some(Normalize(q))
    else None
  }

  lemma CancelReal(a: real, b: real, c: real)
    requires c != 0.0 && a * c == b * c
    ensures a == b
  {
  }

  /** A non-zero divisor leaves room for one normal quotient. */
  lemma QuotientUnique(q: ExactDecimal, left: ExactDecimal, right: ExactDecimal)
    requires right.coefficient != 0
    requires IsQuotient(q, left, right)
    ensures Quotient(left, right) == Some(Normalize(q))
  {
    SignOfValue(right);
    hide Value, Normalize;
    assert Quotient(left, right).Some? && IsQuotient(Quotient(left, right).value, left, right);
    var other := Quotient(left, right).value;
    CancelReal(Value(q), Value(other), Value(right));
    NormalFormUnique(Normalize(q), other);
  }

  // ---------------------------------------------------------------------------------------------
  // Greatest common divisor
  // ---------------------------------------------------------------------------------------------

  /** Euclid's recursion. */
  function Gcd(a: nat, b: nat): nat
    decreases b
  {
    if b == 0 then a else Gcd(b, a % b)
  }

  /** It divides both numbers, and is an integer combination of them. */
  lemma {:induction false} GcdBezout(a: nat, b: nat) returns (n: int, d: int, x: int, y: int)
    ensures a == Gcd(a, b) * n && b == Gcd(a, b) * d
    ensures a * x + b * y == Gcd(a, b)
    decreases b
  {
    if b == 0 {
      n, d, x, y := 1, 0, 1, 0;
    } else {
      var k, rest := a / b, a % b;
      var g := Gcd(b, rest);
      var n', d', x', y' := GcdBezout(b, rest);
      BezoutStep(a, b, k, rest, g, n', d', x', y');
      n, d, x, y := k * n' + d', n', y', x' - k * y';
    }
  }

  lemma BezoutStep(a: int, b: int, k: int, rest: int, g: int, n: int, d: int, x: int, y: int)
    requires a == b * k + rest && b == g * n && rest == g * d && b * x + rest * y == g
    ensures a == g * (k * n + d)
    ensures a * y + b * (x - k * y) == g
  {
    assert (b * k + rest) * y == b * (k * y) + rest * y;
    assert (g * n) * k == g * (k * n);
  }

  lemma CancelFactor(g: int, a: int, b: int)
    requires g > 0 && g * a == g * b
    ensures a == b
  {
  }

  /** Dividing two numbers, not both zero, by their gcd leaves coprime numbers. */
  lemma GcdCofactors(a: nat, b: nat) returns (n: nat, d: nat, x: int, y: int)
    requires b > 0
    ensures Gcd(a, b) > 0
    ensures a == Gcd(a, b) * n && b == Gcd(a, b) * d && d > 0
    ensures n * x + d * y == 1
  {
    var n', d', x', y' := GcdBezout(a, b);
    Cofactors(a, b, Gcd(a, b), n', d', x', y');
    n, d, x, y := n', d', x', y';
  }

  lemma Cofactors(a: nat, b: nat, g: nat, n: int, d: int, x: int, y: int)
    requires b > 0 && a == g * n && b == g * d && a * x + b * y == g
    ensures g > 0 && n >= 0 && d > 0 && n * x + d * y == 1
  {
    assert g == 0 ==> g * d == 0;
    assert (g * n) * x + (g * d) * y == g * (n * x + d * y);
    CancelFactor(g, n * x + d * y, 1);
  }

  /** greatestCommonDivisor, which answers 1 for two zeros. */
  method GreatestCommonDivisor(left: nat, right: nat) returns (g: nat)
    ensures g == if left == 0 && right == 0 then 1 else Gcd(left, right)
    ensures g >= 1
  {
    var a, b := left, right;
    while b != 0
      invariant a + b == 0 <==> left + right == 0
      invariant Gcd(a, b) == Gcd(left, right)
      decreases b
    {
      a, b := b, a % b;
    }
    g := if a == 0 then 1 else a;
  }

  // ---------------------------------------------------------------------------------------------
  // Which denominators terminate
  // ---------------------------------------------------------------------------------------------

  /** A number with neither 2 nor 5 as a factor is invertible modulo 10. */
  lemma InverseModTen(rest: int) returns (a: int, b: int)
    requires rest % 2 != 0 && rest % 5 != 0
    ensures rest * a + 10 * b == 1
  {
    var t := rest / 10;
    if rest == 10 * t + 1 {
      a, b := 1, -t;
    } else if rest == 10 * t + 3 {
      a, b := 7, -(7 * t + 2);
    } else if rest == 10 * t + 7 {
      a, b := 3, -(3 * t + 2);
    } else {
      a, b := 9, -(9 * t + 8);
    }
  }

  lemma InverseDividesOut(rest: int, a: int, b: int, z: int, w: int)
    requires rest * a + 10 * b == 1 && rest * z == 10 * w
    ensures rest * (w * a + b * z) == w
  {
    calc {
      10 * (rest * (w * a + b * z));
      rest * ((10 * w) * a + (10 * b) * z);
      rest * ((rest * z) * a + (10 * b) * z);
      rest * (z * (rest * a + 10 * b));
      rest * z;
      10 * w;
    }
  }

  lemma FactorOfOne(rest: int, z: int)
    requires rest > 0 && rest * z == 1
    ensures rest == 1
  {
    assert z >= 1 ==> (rest - 1) * (z - 1) >= 0;
    assert z <= 0 ==> rest * z <= 0;
  }

  /** No number above one without the factors 2 and 5 divides a power of ten. */
  lemma {:induction false} DividesPowerOfTen(rest: int, z: int, k: nat)
    requires rest > 0 && rest % 2 != 0 && rest % 5 != 0
    requires rest * z == Pow10(k)
    ensures rest == 1
  {
    if k == 0 {
      FactorOfOne(rest, z);
    } else {
      var a, b := InverseModTen(rest);
      InverseDividesOut(rest, a, b, z, Pow10(k - 1));
      DividesPowerOfTen(rest, Pow10(k - 1) * a + b * z, k - 1);
    }
  }

  lemma Bezouted(n: int, d: int, x: int, y: int, c: int, p: int)
    requires n * x + d * y == 1 && c * d == n * p
    ensures p == d * (c * x + p * y)
  {
    assert p == p * (n * x + d * y) == (n * p) * x + p * (d * y);
    assert (c * d) * x == d * (c * x) && p * (d * y) == d * (p * y);
    Distribute(d, c * x, p * y);
  }

  lemma Distribute(d: int, a: int, b: int)
    ensures d * (a + b) == d * a + d * b
  {
  }

  lemma Associate(a: int, b: int, c: int)
    ensures (a * b) * c == a * (b * c)
  {
  }

  /** Gauss: a denominator coprime to its numerator must divide the power of ten itself. */
  lemma TerminatingDenominator(n: int, d: int, rest: int, m: int, x: int, y: int, c: int, k: nat)
    requires d == rest * m && rest > 0 && rest % 2 != 0 && rest % 5 != 0
    requires n * x + d * y == 1
    requires c * d == n * Pow10(k)
    ensures rest == 1
  {
    hide Pow10;
    var p := Pow10(k);
    Bezouted(n, d, x, y, c, p);
    var z := c * x + p * y;
    Associate(rest, m, z);
    DividesPowerOfTen(rest, m * z, k);
  }

  lemma {:induction false} PowSum(base: int, a: nat, b: nat)
    ensures Pow(base, a + b) == Pow(base, a) * Pow(base, b)
  {
    if a > 0 {
      PowSum(base, a - 1, b);
      assert base * (Pow(base, a - 1) * Pow(base, b)) == Pow(base, a) * Pow(base, b);
    }
  }

  lemma {:induction false} TenIsTwoTimesFive(e: nat)
    ensures Pow10(e) == Pow(2, e) * Pow(5, e)
  {
    if e > 0 {
      TenIsTwoTimesFive(e - 1);
      var a, b := Pow(2, e - 1), Pow(5, e - 1);
      assert 10 * (a * b) == (2 * a) * (5 * b);
    }
  }

  lemma Regroup(n: int, a: int, b: int, c: int, d: int)
    ensures n * a * b * (c * d) == n * ((a * c) * (b * d))
  {
    assert (a * b) * (c * d) == (a * c) * (b * d);
    assert n * a * b == n * (a * b);
  }

  /** Completing the twos and the fives of a denominator to equal powers makes a power of ten. */
  lemma CompletePowers(n: int, twos: nat, fives: nat, scale: nat)
    requires twos <= scale && fives <= scale
    ensures IsFraction(ExactDecimal(n * Pow(2, scale - twos) * Pow(5, scale - fives), scale),
                       n, Pow(2, twos) * Pow(5, fives))
  {
    PowSum(2, scale - twos, twos);
    PowSum(5, scale - fives, fives);
    TenIsTwoTimesFive(scale);
    Regroup(n, Pow(2, scale - twos), Pow(5, scale - fives), Pow(2, twos), Pow(5, fives));
  }

  // ---------------------------------------------------------------------------------------------
  // The algorithm
  // ---------------------------------------------------------------------------------------------

  /** What is left of a value once a common divisor of its magnitude is taken out. */
  lemma TakeOut(value: int, g: int, cofactor: nat)
    requires g >= 1 && Magnitude(value) == g * cofactor
    ensures var q := TruncatedQuotient(value, g); value == g * q && q == if value < 0 then 0 - cofactor else cofactor
  {
    DivModUnique(Magnitude(value), g, cofactor, 0);
    assert g * (0 - cofactor) == -(g * cofactor);
  }

  /** Taking a factor out of a value. */
  lemma FactorTakenOut(value: int, f: nat)
    requires value != 0 && f in {2, 5}
    ensures TruncatedRemainder(value, f) == 0 <==> value % f == 0
    ensures value % f == 0 ==>
              var next := TruncatedQuotient(value, f);
              value == f * next && next != 0 && (next > 0 <==> value > 0) && Magnitude(next) < Magnitude(value)
  {
  }

  lemma OddStaysOdd(value: int, next: int)
    requires value == 5 * next && value % 2 != 0
    ensures next % 2 != 0
  {
  }

  lemma MoveFactor(f: int, e: int, count: nat)
    ensures (f * e) * Pow(f, count) == e * Pow(f, count + 1)
  {
    var p := Pow(f, count);
    assert (f * e) * p == e * (f * p);
  }

  lemma NoFactorYet(value: int, f: int)
    ensures value == value * Pow(f, 0)
  {
  }

  /** The first stripping loop of the division: every factor 2 is counted and removed. */
  method StripTwos(start: int) returns (rest: int, count: nat)
    requires start != 0
    ensures rest != 0 && rest % 2 != 0 && (rest > 0 <==> start > 0)
    ensures start == rest * Pow(2, count)
  {
    hide Pow, TruncatedQuotient, TruncatedRemainder, Magnitude;
    rest, count := start, 0;
    NoFactorYet(start, 2);
    FactorTakenOut(rest, 2);
    while TruncatedRemainder(rest, 2) == 0
      invariant rest != 0 && (rest > 0 <==> start > 0)
      invariant TruncatedRemainder(rest, 2) == 0 <==> rest % 2 == 0
      invariant start == rest * Pow(2, count)
      decreases Magnitude(rest)
    {
      FactorTakenOut(rest, 2);
      var next := TruncatedQuotient(rest, 2);
      MoveFactor(2, next, count);
      FactorTakenOut(next, 2);
      rest, count := next, count + 1;
    }
  }

  /** The second loop: every factor 5, keeping an odd number odd. */
  method StripFives(start: int) returns (rest: int, count: nat)
    requires start != 0
    ensures rest != 0 && rest % 5 != 0 && (rest > 0 <==> start > 0)
    ensures start % 2 != 0 ==> rest % 2 != 0
    ensures start == rest * Pow(5, count)
  {
    hide Pow, TruncatedQuotient, TruncatedRemainder, Magnitude;
    rest, count := start, 0;
    NoFactorYet(start, 5);
    FactorTakenOut(rest, 5);
    while TruncatedRemainder(rest, 5) == 0
      invariant rest != 0 && (rest > 0 <==> start > 0)
      invariant TruncatedRemainder(rest, 5) == 0 <==> rest % 5 == 0
      invariant start % 2 != 0 ==> rest % 2 != 0
      invariant start == rest * Pow(5, count)
      decreases Magnitude(rest)
    {
      FactorTakenOut(rest, 5);
      var next := TruncatedQuotient(rest, 5);
      if start % 2 != 0 { OddStaysOdd(rest, next); }
      MoveFactor(5, next, count);
      FactorTakenOut(next, 5);
      rest, count := next, count + 1;
    }
  }

  /** The decimal q is the fraction n / d. */
  ghost predicate IsFraction(q: ExactDecimal, n: int, d: int) {
    q.coefficient * d == n * Pow10(q.scale)
  }

  ghost predicate Coprime(n: int, d: int) {
    exists x, y :: BezoutIdentity(n, x, d, y)
  }

  ghost predicate BezoutIdentity(n: int, x: int, d: int, y: int) {
    n * x + d * y == 1
  }

  /** A reduced denominator with another prime factor than 2 and 5: no finite decimal is the fraction. */
  lemma NoFraction(n: int, d: int, rest: int, m: int, q: ExactDecimal)
    requires Coprime(n, d)
    requires d == rest * m && rest > 1 && rest % 2 != 0 && rest % 5 != 0
    ensures !IsFraction(q, n, d)
  {
    var x, y :| BezoutIdentity(n, x, d, y);
    if IsFraction(q, n, d) {
      TerminatingDenominator(n, d, rest, m, x, y, q.coefficient, q.scale);
    }
  }

  lemma {:induction false} PowPositive(base: int, e: nat)
    requires base > 0
    ensures Pow(base, e) > 0
  {
    if e > 0 { PowPositive(base, e - 1); }
  }

  lemma MagnitudeProduct(c: int, p: int)
    requires p > 0
    ensures Magnitude(c * p) == Magnitude(c) * p
    ensures c != 0 ==> c * p != 0
  {
  }

  /** Both strippings together: the magnitude of the denominator is what is left times twos and fives. */
  lemma StrippedMagnitude(d: int, odd: int, last: int, twos: nat, fives: nat)
    requires d == odd * Pow(2, twos) && odd == last * Pow(5, fives)
    ensures Magnitude(d) == Magnitude(last) * (Pow(2, twos) * Pow(5, fives))
    ensures Magnitude(last) == 1 ==> Magnitude(d) == Pow(2, twos) * Pow(5, fives)
  {
    PowPositive(2, twos);
    PowPositive(5, fives);
    MagnitudeProduct(odd, Pow(2, twos));
    MagnitudeProduct(last, Pow(5, fives));
    assert (Magnitude(last) * Pow(5, fives)) * Pow(2, twos) == Magnitude(last) * (Pow(2, twos) * Pow(5, fives));
  }

  /**
   The second half of the division: a reduced fraction as a decimal, or nothing when its denominator
   holds more than twos and fives. Only the magnitude of the denominator counts.
   */
  method TerminatingFraction(reduced: int, denominator: int) returns (r: Option<ExactDecimal>)
    requires denominator != 0
    requires Coprime(reduced, Magnitude(denominator))
    ensures r.Some? ==> IsFraction(r.value, reduced, Magnitude(denominator))
    ensures r.None? ==> forall q :: !IsFraction(q, reduced, Magnitude(denominator))
  {
    hide IsFraction, Coprime, Pow;
    var odd, twos := StripTwos(denominator);
    var last, fives := StripFives(odd);
    ghost var m := Pow(2, twos) * Pow(5, fives);
    StrippedMagnitude(denominator, odd, last, twos, fives);
    if last != 1 && last != -1 {
      forall q: ExactDecimal ensures !IsFraction(q, reduced, Magnitude(denominator)) {
        NoFraction(reduced, Magnitude(denominator), Magnitude(last), m, q);
      }
      return None;
    }
    var q := CompleteNumerator(reduced, twos, fives);
    r := Some(q);
  }

  /** With equal powers of 2 and 5 below, the denominator is a power of ten. */
  method CompleteNumerator(reduced: int, twos: nat, fives: nat) returns (q: ExactDecimal)
    ensures IsFraction(q, reduced, Pow(2, twos) * Pow(5, fives))
  {
    hide IsFraction;
    var scale := Max(twos, fives);
    var numerator := reduced;
    if twos < scale { numerator := numerator * Pow(2, scale - twos); }
    if fives < scale { numerator := numerator * Pow(5, scale - fives); }
    CompletePowers(reduced, twos, fives, scale);
    q := ExactDecimal(numerator, scale);
  }

  /** The first half: both operands over one power of ten, and their common divisor taken out. */
  method ReducedOperands(left: ExactDecimal, right: ExactDecimal) returns (n: int, d: int)
    requires right.coefficient != 0
    ensures d != 0 && Coprime(n, Magnitude(d))
    ensures forall q :: IsQuotient(q, left, AbsDecimal(right)) <==> IsFraction(q, n, Magnitude(d))
  {
    var numerator, denominator := CommonScale(left, right);
    var g := GreatestCommonDivisor(Magnitude(numerator), Magnitude(denominator));
    ReduceByGcd(numerator, denominator);
    n, d := TruncatedQuotient(numerator, g), TruncatedQuotient(denominator, g);
    SameRatio(left, AbsDecimal(right), Max(left.scale, right.scale),
              numerator, Magnitude(denominator), g, n, Magnitude(d));
  }

  /** Dividing by the greatest common divisor is exact and leaves a reduced fraction. */
  lemma ReduceByGcd(numerator: int, denominator: int)
    requires denominator != 0
    ensures var g := Gcd(Magnitude(numerator), Magnitude(denominator));
            g > 0 &&
            var n, d := TruncatedQuotient(numerator, g), TruncatedQuotient(denominator, g);
            d != 0 && numerator == g * n && Magnitude(denominator) == g * Magnitude(d) && Coprime(n, Magnitude(d))
  {
    var g := Gcd(Magnitude(numerator), Magnitude(denominator));
    var a, b, x, y := GcdCofactors(Magnitude(numerator), Magnitude(denominator));
    TakeOut(numerator, g, a);
    TakeOut(denominator, g, b);
    SignedCoprime(a, x, b, y);
  }

  lemma SignedCoprime(n: int, x: int, d: int, y: int)
    requires n * x + d * y == 1
    ensures Coprime(n, d) && Coprime(-n, d)
  {
    assert BezoutIdentity(n, x, d, y);
    assert BezoutIdentity(-n, -x, d, y);
  }

  /** The integer equation that says c / 10^k is the quotient of n and d, both of one scale. */
  lemma QuotientAsIntegers(c: int, k: nat, n: int, d: int, s: nat)
    ensures Scaled(c, k) * Scaled(d, s) == Scaled(n, s) <==> c * d == n * Pow10(k)
  {
    ScaledProduct(c, k, d, s);
    ScaledShift(n, s, k);
    ScaledMonotone(c * d, n * Pow10(k), k + s);
  }

  /** Over one power of ten, a quotient of decimals is a fraction of integers. */
  lemma QuotientIsFraction(q: ExactDecimal, left: ExactDecimal, right: ExactDecimal, s: nat, numerator: int, denominator: int)
    requires Value(left) == Scaled(numerator, s) && Value(right) == Scaled(denominator, s)
    ensures IsQuotient(q, left, right) <==> IsFraction(q, numerator, denominator)
  {
    hide Scaled, Pow10;
    QuotientAsIntegers(q.coefficient, q.scale, numerator, denominator, s);
  }

  lemma ReducingKeepsFraction(q: ExactDecimal, g: int, n: int, d: int)
    requires g > 0
    ensures IsFraction(q, g * n, g * d) <==> IsFraction(q, n, d)
  {
    var c, p := q.coefficient, Pow10(q.scale);
    assert c * (g * d) == g * (c * d);
    assert (g * n) * p == g * (n * p);
  }

  lemma SameRatio(left: ExactDecimal, right: ExactDecimal, s: nat, numerator: int, denominator: int, g: int, n: int, d: int)
    requires Value(left) == Scaled(numerator, s) && Value(right) == Scaled(denominator, s)
    requires g > 0 && numerator == g * n && denominator == g * d
    ensures forall q :: IsQuotient(q, left, right) <==> IsFraction(q, n, d)
  {
    hide IsQuotient, IsFraction;
    forall q: ExactDecimal ensures IsQuotient(q, left, right) <==> IsFraction(q, n, d) {
      QuotientIsFraction(q, left, right, s, numerator, denominator);
      ReducingKeepsFraction(q, g, n, d);
    }
  }

  /**
   divideExactDecimals. The sign of a negative divisor is lost: a reduced denominator of -1 is
   accepted like 1. So the result is the quotient by the divisor's magnitude.
   */
  method DivideExactDecimals(left: ExactDecimal, right: ExactDecimal) returns (r: Option<ExactDecimal>)
    ensures r == Quotient(left, AbsDecimal(right))
  {
    if right.coefficient == 0 { return None; }
    var n, d := ReducedOperands(left, right);
    r := TerminatingFraction(n, d);
    if r.Some? {
      QuotientUnique(r.value, left, AbsDecimal(right));
      var normal := NormalizeExactDecimal(r.value);
      r := Some(normal);
    }
  }

  /** Both operands as integers over one power of ten. */
  method CommonScale(left: ExactDecimal, right: ExactDecimal) returns (numerator: int, denominator: int)
    requires right.coefficient != 0
    ensures denominator != 0
    ensures Value(left) == Scaled(numerator, Max(left.scale, right.scale))
    ensures Value(AbsDecimal(right)) == Scaled(Magnitude(denominator), Max(left.scale, right.scale))
  {
    numerator, denominator := left.coefficient, right.coefficient;
    var scaleDelta := right.scale - left.scale;
    if scaleDelta >= 0 {
      numerator := numerator * Pow10(scaleDelta);
      ScaledShift(left.coefficient, left.scale, scaleDelta);
    } else {
      denominator := denominator * Pow10(-scaleDelta);
      MagnitudeProduct(right.coefficient, Pow10(-scaleDelta));
      ScaledShift(Magnitude(right.coefficient), right.scale, -scaleDelta);
    }
  }

  // ---------------------------------------------------------------------------------------------
  // When the result is the true quotient
  // ---------------------------------------------------------------------------------------------

  /** With a divisor of either sign, the returned decimal is the quotient unless the divisor is negative. */
  lemma DivisionCorrectIff(left: ExactDecimal, right: ExactDecimal, r: ExactDecimal)
    requires Quotient(left, AbsDecimal(right)) == Some(r)
    ensures IsQuotient(r, left, right) <==> right.coefficient > 0 || left.coefficient == 0
  {
    SignOfValue(left);
    SignOfValue(right);
    var magnitude := Value(AbsDecimal(right));
    assert Value(r) * magnitude == Value(left);
    if right.coefficient < 0 {
      assert Value(r) * Value(right) == -(Value(r) * magnitude);
    }
  }

  /** 1 / -1 comes out as 1. */
  lemma NegativeDivisorLosesSign()
    ensures var one, minusOne := ExactDecimal(1, 0), ExactDecimal(-1, 0);
            Quotient(one, AbsDecimal(minusOne)) == Some(one) && !IsQuotient(one, one, minusOne)
  {
    var one := ExactDecimal(1, 0);
    assert IsQuotient(one, one, one);
    QuotientUnique(one, one, one);
  }
}
