/**
 The texts of numbers in JSON: integers of unbounded size as BigInt's toString writes them, and finite
 numbers as Number::toString writes them (section 6.1.6.1.20 of ECMA-262, radix 10).

 A finite number is given by the shortest decimal that denotes it, which is what that section starts
 from: distinct numbers have distinct shortest decimals. Zero has no sign here.
 */
module JsonNumber {
  import opened Basics
  import opened DecimalText

  /** A UTF-16 code unit. */
  type Unit = u: int | 0 <= u < 0x10000

  type Text = seq<Unit>

  datatype Decimal = Decimal(coefficient: int, exponent: int)

  /** coefficient * 10^exponent, without trailing zeros in the coefficient. */
  type Finite = d: Decimal | d.coefficient % 10 != 0 || d == Decimal(0, 0) witness Decimal(0, 0)

  const MINUS: Unit := 45
  const PLUS: Unit := 43
  const POINT: Unit := 46
  const NAUGHT: Unit := 48
  const LETTER_E: Unit := 101

  predicate IsDigitUnit(u: Unit) { 48 <= u < 58 }

  predicate AllDigitUnits(t: Text) { forall i :: 0 <= i < |t| ==> IsDigitUnit(t[i]) }

  /** A number in decimal digits, without leading zeros. */
  function DigitUnits(n: nat): (t: Text)
    ensures AllDigitUnits(t) && |t| > 0
    ensures n > 0 <==> t[0] != NAUGHT
  {
    var s := Digits(n);
    seq(|s|, i requires 0 <= i < |s| => assert IsDigit(s[i]); s[i] as int)
  }

  function Naughts(n: nat): Text { seq(n, _ => NAUGHT) }

  /** BigInt's toString. */
  function IntegerText(n: int): Text { if n < 0 then [MINUS] + DigitUnits(-n) else DigitUnits(n) }

  function ExponentText(e: int): Text { if e < 0 then [MINUS] + DigitUnits(-e) else [PLUS] + DigitUnits(e) }

  /** The digits d with the point at the place n: a whole number, a point inside, a point before, or an exponent. */
  function PlacedText(d: Text, n: int): Text
    requires |d| > 0
  {
    if |d| <= n <= 21 then d + Naughts(n - |d|)
    else if 0 < n <= 21 then d[..n] + [POINT] + d[n..]
    else if -6 < n <= 0 then [NAUGHT, POINT] + Naughts(-n) + d
    else d[..1] + Fraction(d) + [LETTER_E] + ExponentText(n - 1)
  }

  function Fraction(d: Text): Text
    requires |d| > 0
  {
    if |d| == 1 then [] else [POINT] + d[1..]
  }

  /** Number::toString of a finite number. */
  function NumberText(x: Finite): Text {
    var d := DigitUnits(Magnitude(x.coefficient));
    var t := PlacedText(d, |d| + x.exponent);
    if x.coefficient < 0 then [MINUS] + t else t
  }

  // ---------------------------------------------------------------------------------------------
  // Digits
  // ---------------------------------------------------------------------------------------------

  lemma DigitUnitsInjective(m: nat, n: nat)
    requires DigitUnits(m) == DigitUnits(n)
    ensures m == n
  {
    var s, t := Digits(m), Digits(n);
    assert |s| == |DigitUnits(m)| && |t| == |DigitUnits(n)|;
    forall i | 0 <= i < |s| ensures s[i] == t[i] {
      assert DigitUnits(m)[i] == s[i] as int && DigitUnits(n)[i] == t[i] as int;
    }
    assert s == t;
    ParseOfDigits(m);
    ParseOfDigits(n);
  }

  /** The digits of a coefficient: nothing to drop at either end, but for zero. */
  predicate Significant(d: Text) {
    AllDigitUnits(d) && |d| > 0 && (d == [NAUGHT] || (d[0] != NAUGHT && d[|d| - 1] != NAUGHT))
  }

  lemma CoefficientIsSignificant(x: Finite)
    ensures var d := DigitUnits(Magnitude(x.coefficient)); Significant(d) && (d == [NAUGHT] ==> x == Decimal(0, 0))
  {
    var n := Magnitude(x.coefficient);
    var s := Digits(n);
    var d := DigitUnits(n);
    assert s[|s| - 1] == DigitChar(n % 10);
    assert d[|d| - 1] == s[|s| - 1] as int;
    if n == 0 { assert s == "0"; }
  }

  // ---------------------------------------------------------------------------------------------
  // Runs
  // ---------------------------------------------------------------------------------------------

  /** The rest of a text does not go on with the run before it. */
  predicate Ends(r: Text, p: Unit -> bool) { r == [] || !p(r[0]) }

  /** A run of units of one kind ends where they end. */
  lemma RunUnique(a: Text, b: Text, ra: Text, rb: Text, p: Unit -> bool)
    requires a + ra == b + rb && Ends(ra, p) && Ends(rb, p)
    requires (forall u :: u in a ==> p(u)) && forall u :: u in b ==> p(u)
    ensures a == b && ra == rb
  {
    if |a| < |b| {
      RunGoesOn(a, b, ra, rb, p);
      assert false;
    } else if |b| < |a| {
      RunGoesOn(b, a, rb, ra, p);
      assert false;
    }
    assert (a + ra)[..|a|] == a && (b + rb)[..|b|] == b;
    assert (a + ra)[|a|..] == ra && (b + rb)[|b|..] == rb;
  }

  lemma RunGoesOn(a: Text, b: Text, ra: Text, rb: Text, p: Unit -> bool)
    requires a + ra == b + rb && |a| < |b| && forall u :: u in b ==> p(u)
    ensures !Ends(ra, p)
  {
    assert (b + rb)[|a|] == b[|a|];
    assert (a + ra)[|a|] == ra[0];
  }

  /** After naughts, the first digit that is none tells how many they were. */
  lemma NaughtsUnique(a: nat, b: nat, d: Text, e: Text)
    requires Naughts(a) + d == Naughts(b) + e && d != [] && e != [] && d[0] != NAUGHT && e[0] != NAUGHT
    ensures a == b && d == e
  {
    RunUnique(Naughts(a), Naughts(b), d, e, u => u == NAUGHT);
    assert |Naughts(a)| == a && |Naughts(b)| == b;
  }

  // ---------------------------------------------------------------------------------------------
  // The four forms
  // ---------------------------------------------------------------------------------------------

  datatype Form = WholeForm | InsideForm | BeforeForm | ExponentForm

  function FormOf(d: Text, n: int): Form {
    if |d| <= n <= 21 then WholeForm else if 0 < n <= 21 then InsideForm else if -6 < n <= 0 then BeforeForm else ExponentForm
  }

  /** The form as the text shows it. */
  function FormSeen(t: Text): Form
    requires t != []
  {
    if LETTER_E in t then ExponentForm else if POINT !in t then WholeForm else if t[0] == NAUGHT then BeforeForm else InsideForm
  }

  /** Digits and their place: zero stands right before the point. */
  predicate Placed(d: Text, n: int) { Significant(d) && (d == [NAUGHT] ==> n == 1) }

  lemma FormIsSeen(d: Text, n: int)
    requires Placed(d, n)
    ensures FormSeen(PlacedText(d, n)) == FormOf(d, n)
  {
    var t := PlacedText(d, n);
    match FormOf(d, n)
    case WholeForm =>
      assert forall u :: u in t ==> u in d || u == NAUGHT;
    case InsideForm =>
      assert t[n] == POINT && t[0] == d[0];
      assert forall u :: u in t ==> u in d || u == POINT;
    case BeforeForm =>
      assert t[1] == POINT && t[0] == NAUGHT;
      assert forall u :: u in t ==> u in d || u == POINT || u == NAUGHT;
    case ExponentForm =>
      assert t[1 + |Fraction(d)|] == LETTER_E;
  }

  lemma WholeInjective(d: Text, n: int, e: Text, m: int)
    requires Placed(d, n) && Placed(e, m) && FormOf(d, n) == FormOf(e, m) == WholeForm && PlacedText(d, n) == PlacedText(e, m)
    ensures d == e && n == m
  {
    var t := PlacedText(d, n);
    assert |t| == n == m;
    assert forall i :: |d| <= i < n ==> t[i] == NAUGHT;
    assert forall i :: |e| <= i < n ==> t[i] == NAUGHT;
    assert t[|d| - 1] == d[|d| - 1] && t[|e| - 1] == e[|e| - 1];
    assert t[..|d|] == d && t[..|e|] == e;
  }

  lemma InsideInjective(d: Text, n: int, e: Text, m: int)
    requires Placed(d, n) && Placed(e, m) && FormOf(d, n) == FormOf(e, m) == InsideForm && PlacedText(d, n) == PlacedText(e, m)
    ensures d == e && n == m
  {
    assert PlacedText(d, n) == d[..n] + ([POINT] + d[n..]) && PlacedText(e, m) == e[..m] + ([POINT] + e[m..]);
    RunUnique(d[..n], e[..m], [POINT] + d[n..], [POINT] + e[m..], IsDigitUnit);
    assert d[n..] == ([POINT] + d[n..])[1..] && e[m..] == ([POINT] + e[m..])[1..];
    assert d == d[..n] + d[n..] && e == e[..m] + e[m..];
  }

  lemma BeforeInjective(d: Text, n: int, e: Text, m: int)
    requires Placed(d, n) && Placed(e, m) && FormOf(d, n) == FormOf(e, m) == BeforeForm && PlacedText(d, n) == PlacedText(e, m)
    ensures d == e && n == m
  {
    assert PlacedText(d, n)[2..] == Naughts(-n) + d && PlacedText(e, m)[2..] == Naughts(-m) + e;
    NaughtsUnique(-n, -m, d, e);
  }

  lemma ExponentTextInjective(a: int, b: int)
    requires ExponentText(a) == ExponentText(b)
    ensures a == b
  {
    assert ExponentText(a)[1..] == DigitUnits(Magnitude(a)) && ExponentText(b)[1..] == DigitUnits(Magnitude(b));
    assert ExponentText(a)[0] == ExponentText(b)[0];
    DigitUnitsInjective(Magnitude(a), Magnitude(b));
  }

  lemma Regrouped(a: Unit, b: Unit, s: Text, r: Text)
    ensures [a] + ([b] + s) + r == [a, b] + (s + r)
    ensures ([a, b] + r)[0] == a && ([a, b] + r)[1] == b && ([a, b] + r)[2..] == r
  {
  }

  /** The fourth form: the first digit, the point and the other digits if there are any, and the exponent. */
  lemma ExponentParts(d: Text, n: int)
    requires |d| > 0 && FormOf(d, n) == ExponentForm
    ensures PlacedText(d, n) == if |d| == 1 then [d[0], LETTER_E] + ExponentText(n - 1)
                                else [d[0], POINT] + (d[1..] + ([LETTER_E] + ExponentText(n - 1)))
  {
    hide ExponentText;
    var x := ExponentText(n - 1);
    assert d[..1] == [d[0]];
    assert PlacedText(d, n) == ([d[0]] + Fraction(d)) + ([LETTER_E] + x);
    if |d| == 1 {
      Regrouped(d[0], LETTER_E, [], x);
      assert [d[0]] + [] == [d[0]];
      assert [d[0]] + ([LETTER_E] + x) == [d[0], LETTER_E] + x;
    } else {
      Regrouped(d[0], POINT, d[1..], [LETTER_E] + x);
    }
  }

  lemma ExponentInjective(d: Text, n: int, e: Text, m: int)
    requires Placed(d, n) && Placed(e, m) && FormOf(d, n) == FormOf(e, m) == ExponentForm && PlacedText(d, n) == PlacedText(e, m)
    ensures d == e && n == m
  {
    hide PlacedText, ExponentText;
    var rd, re := [LETTER_E] + ExponentText(n - 1), [LETTER_E] + ExponentText(m - 1);
    ExponentParts(d, n);
    ExponentParts(e, m);
    Regrouped(d[0], if |d| == 1 then LETTER_E else POINT, [], if |d| == 1 then ExponentText(n - 1) else d[1..] + rd);
    Regrouped(e[0], if |e| == 1 then LETTER_E else POINT, [], if |e| == 1 then ExponentText(m - 1) else e[1..] + re);
    if |d| > 1 {
      RunUnique(d[1..], e[1..], rd, re, IsDigitUnit);
      assert rd[1..] == ExponentText(n - 1) && re[1..] == ExponentText(m - 1);
    }
    assert d == [d[0]] + d[1..] && e == [e[0]] + e[1..];
    ExponentTextInjective(n - 1, m - 1);
  }

  lemma PlacedInjective(d: Text, n: int, e: Text, m: int)
    requires Placed(d, n) && Placed(e, m) && PlacedText(d, n) == PlacedText(e, m)
    ensures d == e && n == m
  {
    hide PlacedText, Placed, FormSeen;
    FormIsSeen(d, n);
    FormIsSeen(e, m);
    match FormOf(d, n)
    case WholeForm => WholeInjective(d, n, e, m);
    case InsideForm => InsideInjective(d, n, e, m);
    case BeforeForm => BeforeInjective(d, n, e, m);
    case ExponentForm => ExponentInjective(d, n, e, m);
  }

  // ---------------------------------------------------------------------------------------------
  // Numbers
  // ---------------------------------------------------------------------------------------------

  /** What the texts of numbers consist of. */
  predicate IsNumeric(u: Unit) { IsDigitUnit(u) || u in {MINUS, PLUS, POINT, LETTER_E} }

  lemma NumberTextShape(x: Finite)
    ensures NumberText(x) != [] && (forall u :: u in NumberText(x) ==> IsNumeric(u))
    ensures NumberText(x)[0] == MINUS <==> x.coefficient < 0
    ensures NumberText(x)[0] != MINUS ==> IsDigitUnit(NumberText(x)[0])
  {
    hide DigitUnits;
    var d := DigitUnits(Magnitude(x.coefficient));
    PlacedShape(d, |d| + x.exponent);
  }

  lemma PlacedShape(d: Text, n: int)
    requires AllDigitUnits(d) && |d| > 0
    ensures PlacedText(d, n) != [] && IsDigitUnit(PlacedText(d, n)[0])
    ensures forall u :: u in PlacedText(d, n) ==> IsNumeric(u)
  {
    hide DigitUnits;
  }

  /** The text of a number ends where its units end, and determines the number. */
  lemma NumberInjective(x: Finite, y: Finite, rx: Text, ry: Text)
    requires NumberText(x) + rx == NumberText(y) + ry && Ends(rx, IsNumeric) && Ends(ry, IsNumeric)
    ensures x == y && rx == ry
  {
    hide PlacedText, DigitUnits, Placed, IsNumeric;
    NumberTextShape(x);
    NumberTextShape(y);
    RunUnique(NumberText(x), NumberText(y), rx, ry, IsNumeric);
    var d, e := DigitUnits(Magnitude(x.coefficient)), DigitUnits(Magnitude(y.coefficient));
    CoefficientIsPlaced(x);
    CoefficientIsPlaced(y);
    assert PlacedText(d, |d| + x.exponent) == (if x.coefficient < 0 then NumberText(x)[1..] else NumberText(x));
    assert PlacedText(e, |e| + y.exponent) == (if y.coefficient < 0 then NumberText(y)[1..] else NumberText(y));
    PlacedInjective(d, |d| + x.exponent, e, |e| + y.exponent);
    DigitUnitsInjective(Magnitude(x.coefficient), Magnitude(y.coefficient));
  }

  lemma CoefficientIsPlaced(x: Finite)
    ensures var d := DigitUnits(Magnitude(x.coefficient)); Placed(d, |d| + x.exponent)
  {
    hide DigitUnits;
    CoefficientIsSignificant(x);
  }

  lemma IntegerInjective(m: int, n: int)
    requires IntegerText(m) == IntegerText(n)
    ensures m == n
  {
    hide DigitUnits;
    assert (if m < 0 then IntegerText(m)[1..] else IntegerText(m)) == DigitUnits(Magnitude(m));
    assert (if n < 0 then IntegerText(n)[1..] else IntegerText(n)) == DigitUnits(Magnitude(n));
    assert IntegerText(m)[0] == MINUS <==> m < 0;
    assert IntegerText(n)[0] == MINUS <==> n < 0;
    DigitUnitsInjective(Magnitude(m), Magnitude(n));
  }
}
