/**
 Decimals as text: the two grammars the ledger accepts, the parser and the printer.
 */
module DecimalText {
  import opened Basics
  import opened ExactDecimals

  predicate IsDigit(c: char) { '0' <= c <= '9' }

  predicate AllDigits(s: string) { forall i :: 0 <= i < |s| ==> IsDigit(s[i]) }

  function DigitValue(c: char): int
    requires IsDigit(c)
  {
    c as int - '0' as int
  }

  function DigitChar(v: int): (c: char)
    requires 0 <= v < 10
    ensures IsDigit(c) && DigitValue(c) == v
  {
    ('0' as int + v) as char
  }

  /** The number that a run of digits denotes. */
  function ParseDigits(s: string): nat
    requires AllDigits(s)
  {
    if s == [] then 0 else 10 * ParseDigits(s[..|s| - 1]) + DigitValue(s[|s| - 1])
  }

  /** A number in decimal digits, without leading zeros. */
  function Digits(n: nat): (s: string)
    ensures AllDigits(s) && |s| > 0
    ensures n > 0 <==> s[0] != '0'
  {
    if n < 10 then [DigitChar(n)] else Digits(n / 10) + [DigitChar(n % 10)]
  }

  function PadStart(s: string, length: nat): string {
    if |s| >= length then s else seq(length - |s|, _ => '0') + s
  }

  // ---------------------------------------------------------------------------------------------
  // Digits and numbers
  // ---------------------------------------------------------------------------------------------

  lemma {:induction false} ParseOfDigits(n: nat)
    ensures ParseDigits(Digits(n)) == n
  {
    if n >= 10 {
      assert Digits(n)[..|Digits(n)| - 1] == Digits(n / 10);
      ParseOfDigits(n / 10);
    }
  }

  lemma {:induction false} DigitsOfParse(s: string)
    requires AllDigits(s) && |s| > 0 && (s[0] != '0' || |s| == 1)
    ensures Digits(ParseDigits(s)) == s
  {
    if |s| > 1 {
      var init := s[..|s| - 1];
      DigitsOfParse(init);
      assert s == init + [s[|s| - 1]];
    }
  }

  lemma {:induction false} LeadingZero(s: string)
    requires AllDigits(s) && |s| > 0 && s[0] == '0'
    ensures ParseDigits(s) == ParseDigits(s[1..])
  {
    if |s| > 1 {
      assert s[1..][..|s| - 2] == s[..|s| - 1][1..];
      LeadingZero(s[..|s| - 1]);
    }
  }

  /** Padding gives back the zeros that a number forgets. */
  lemma {:induction false} PadOfParse(s: string)
    requires AllDigits(s) && |s| > 0
    ensures PadStart(Digits(ParseDigits(s)), |s|) == s
  {
    if s[0] != '0' || |s| == 1 {
      DigitsOfParse(s);
    } else {
      LeadingZero(s);
      PadOfParse(s[1..]);
      assert s == ['0'] + s[1..];
    }
  }

  lemma {:induction false} ParsePadded(s: string, zeros: nat)
    requires AllDigits(s)
    ensures var t := seq(zeros, _ => '0') + s; AllDigits(t) && ParseDigits(t) == ParseDigits(s)
  {
    var t := seq(zeros, _ => '0') + s;
    if zeros > 0 {
      ParsePadded(s, zeros - 1);
      assert t[1..] == seq(zeros - 1, _ => '0') + s;
      LeadingZero(t);
    } else {
      assert t == s;
    }
  }

  lemma {:induction false} DigitCount(n: nat, k: nat)
    requires k > 0
    ensures |Digits(n)| > k <==> n >= Pow10(k)
  {
    if n >= 10 && k > 1 { DigitCount(n / 10, k - 1); }
  }

  // ---------------------------------------------------------------------------------------------
  // Grammars, parser, printer
  // ---------------------------------------------------------------------------------------------

  /** Position of the first decimal point, or the end of the text. */
  function FindDot(s: string): (p: nat)
    ensures p <= |s|
    ensures p < |s| ==> s[p] == '.'
    ensures forall i :: 0 <= i < p ==> s[i] != '.'
  {
    if s == [] || s[0] == '.' then 0 else 1 + FindDot(s[1..])
  }

  predicate IsWhole(s: string) {
    s == "0" || (|s| > 0 && AllDigits(s) && s[0] != '0')
  }

  predicate IsFraction(s: string) {
    |s| > 0 && AllDigits(s) && s[|s| - 1] != '0'
  }

  /** CANONICAL_NON_NEGATIVE_DECIMAL. */
  predicate IsCanonicalNonNegative(s: string) {
    var p := FindDot(s);
    IsWhole(s[..p]) && (p < |s| ==> IsFraction(s[p + 1..]))
  }

  /** [1-9]\d*(?:\.\d*[1-9])?, the magnitudes of the signed grammar. */
  predicate IsMagnitudeAboveOne(s: string) {
    IsCanonicalNonNegative(s) && s[0] != '0'
  }

  /** CANONICAL_SIGNED_DECIMAL: non-zero magnitudes below one have no place in it. */
  predicate IsCanonicalSigned(s: string) {
    s == "0" || IsMagnitudeAboveOne(s) || (|s| > 0 && s[0] == '-' && IsMagnitudeAboveOne(s[1..]))
  }

  function Unsigned(s: string): string {
    if |s| > 0 && s[0] == '-' then s[1..] else s
  }

  /** What parseCanonicalDecimal is given: a canonical magnitude, with or without a sign. */
  predicate IsDecimalText(s: string) {
    IsCanonicalNonNegative(Unsigned(s))
  }

  /** Whole and fractional digits run together: the coefficient before the sign. */
  function CoefficientDigits(s: string): (digits: string)
    requires IsCanonicalNonNegative(s)
    ensures AllDigits(digits)
  {
    var p := FindDot(s);
    if p < |s| then s[..p] + s[p + 1..] else s
  }

  function FractionLength(s: string): nat {
    var p := FindDot(s);
    if p < |s| then |s| - p - 1 else 0
  }

  function Parse(s: string): (d: ExactDecimal)
    requires IsDecimalText(s)
  {
    var u := Unsigned(s);
    var magnitude := ParseDigits(CoefficientDigits(u));
    Normalize(ExactDecimal(if u == s then magnitude else 0 - magnitude, FractionLength(u)))
  }

  /** The text of a normal decimal that is not negative. */
  function FormatMagnitude(coefficient: nat, scale: nat): string {
    var digits := Digits(coefficient);
    if scale == 0 then digits
    else
      var padded := PadStart(digits, scale + 1);
      padded[..|padded| - scale] + "." + padded[|padded| - scale..]
  }

  function Format(d: ExactDecimal): string {
    var normalized := Normalize(d);
    var magnitude := FormatMagnitude(Magnitude(normalized.coefficient), normalized.scale);
    if normalized.coefficient < 0 then "-" + magnitude else magnitude
  }

  // ---------------------------------------------------------------------------------------------
  // The printed form is in the grammar
  // ---------------------------------------------------------------------------------------------

  lemma {:induction false} DotAfterDigits(whole: string, rest: string)
    requires AllDigits(whole) && (rest == [] || rest[0] == '.')
    ensures FindDot(whole + rest) == |whole|
  {
    if whole == [] {
      assert whole + rest == rest;
    } else {
      assert (whole + rest)[1..] == whole[1..] + rest;
      DotAfterDigits(whole[1..], rest);
    }
  }

  /** Two canonical parts around a point make a canonical text of their joined digits. */
  lemma JoinedText(whole: string, fraction: string)
    requires IsWhole(whole) && IsFraction(fraction)
    ensures var s := whole + "." + fraction;
            && FindDot(s) == |whole|
            && IsCanonicalNonNegative(s)
            && FractionLength(s) == |fraction|
            && CoefficientDigits(s) == whole + fraction
  {
    var s := whole + "." + fraction;
    DotAfterDigits(whole, "." + fraction);
    assert s == whole + ("." + fraction);
    assert s[..|whole|] == whole && s[|whole| + 1..] == fraction;
  }

  function Padded(c: nat, scale: nat): (s: string)
    ensures |s| >= scale + 1
    ensures s == PadStart(Digits(c), scale + 1)
  {
    PadStart(Digits(c), scale + 1)
  }

  /** The digits of a coefficient, padded to reach past the point. */
  lemma PaddedDigits(c: nat, scale: nat)
    ensures AllDigits(Padded(c, scale)) && ParseDigits(Padded(c, scale)) == c
    ensures Padded(c, scale)[|Padded(c, scale)| - 1] == DigitChar(c % 10)
  {
    var digits := Digits(c);
    ParseOfDigits(c);
    assert digits[|digits| - 1] == DigitChar(c % 10);
    hide Digits, ParseDigits;
    if |digits| < scale + 1 {
      ParsePadded(digits, scale + 1 - |digits|);
    }
  }

  /** Padding is needed just for the magnitudes below one, and then fills the single whole digit. */
  lemma PaddedWhole(c: nat, scale: nat)
    requires scale > 0
    ensures Padded(c, scale)[0] == '0' <==> c < Pow10(scale)
    ensures Padded(c, scale)[0] == '0' ==> |Padded(c, scale)| == scale + 1
  {
    hide Pow10;
    DigitCount(c, scale);
    assert c == 0 ==> Digits(c) == "0";
  }

  lemma FormatWholeShape(c: nat)
    ensures var s := FormatMagnitude(c, 0);
            && IsCanonicalNonNegative(s) && |s| > 0 && IsDigit(s[0])
            && FractionLength(s) == 0 && CoefficientDigits(s) == s && ParseDigits(s) == c
            && (s[0] == '0' <==> c == 0)
  {
    var digits := Digits(c);
    ParseOfDigits(c);
    assert digits + [] == digits;
    DotAfterDigits(digits, []);
    assert digits[..|digits|] == digits;
    assert c == 0 ==> digits == "0";
  }

  /** Cutting the padded digits at the point gives two canonical parts. */
  lemma CutPadded(padded: string, scale: nat)
    requires AllDigits(padded) && scale > 0 && |padded| >= scale + 1
    requires padded[|padded| - 1] != '0'
    requires padded[0] == '0' ==> |padded| == scale + 1
    ensures var whole, fraction := padded[..|padded| - scale], padded[|padded| - scale..];
            && IsWhole(whole) && IsFraction(fraction) && |fraction| == scale
            && whole + fraction == padded && whole[0] == padded[0]
  {
    var whole := padded[..|padded| - scale];
    assert whole[0] == '0' ==> whole == "0";
  }

  /** Facts about the printed magnitude: it is canonical, and its digits denote the coefficient. */
  lemma FormatMagnitudeShape(c: nat, scale: nat)
    requires scale == 0 || c % 10 != 0
    ensures var s := FormatMagnitude(c, scale);
            && IsCanonicalNonNegative(s) && |s| > 0 && IsDigit(s[0])
            && FractionLength(s) == scale
            && ParseDigits(CoefficientDigits(s)) == c
            && (s[0] == '0' <==> c < Pow10(scale))
  {
    if scale == 0 {
      FormatWholeShape(c);
    } else {
      PaddedDigits(c, scale);
      PaddedWhole(c, scale);
      var padded := Padded(c, scale);
      hide *;
      CutPadded(padded, scale);
      var whole, fraction := padded[..|padded| - scale], padded[|padded| - scale..];
      FormatIsJoin(c, scale);
      JoinedText(whole, fraction);
    }
  }

  lemma FormatIsJoin(c: nat, scale: nat)
    requires scale > 0
    ensures var p := Padded(c, scale); FormatMagnitude(c, scale) == p[..|p| - scale] + "." + p[|p| - scale..]
  {
  }

  /** A printed decimal is its printed magnitude, after a sign when it is negative. */
  lemma FormatParts(d: ExactDecimal)
    ensures var n := Normalize(d);
            var m := FormatMagnitude(Magnitude(n.coefficient), n.scale);
            && IsCanonicalNonNegative(m) && |m| > 0 && m[0] != '-'
            && Format(d) == (if n.coefficient < 0 then "-" + m else m)
            && Unsigned(Format(d)) == m
            && (Format(d) == m <==> n.coefficient >= 0)
            && (m[0] == '0' <==> Magnitude(n.coefficient) < Pow10(n.scale))
  {
    hide IsCanonicalNonNegative, FormatMagnitude, Pow10, Normalize, FractionLength, CoefficientDigits, ParseDigits;
    var n := Normalize(d);
    FormatMagnitudeShape(Magnitude(n.coefficient), n.scale);
    DropSign(FormatMagnitude(Magnitude(n.coefficient), n.scale));
  }

  lemma DropSign(m: string)
    ensures ("-" + m)[0] == '-' && ("-" + m)[1..] == m
  {
  }

  /** Parsing what was printed gives the normal form of the decimal, whatever its sign. */
  lemma ParseOfFormat(d: ExactDecimal)
    ensures IsDecimalText(Format(d)) && Parse(Format(d)) == Normalize(d)
  {
    hide IsCanonicalNonNegative, FormatMagnitude, CoefficientDigits, FractionLength, ParseDigits, Format, Unsigned;
    var n := Normalize(d);
    FormatParts(d);
    FormatMagnitudeShape(Magnitude(n.coefficient), n.scale);
  }

  /** The non-negative grammar accepts the printed forms of the decimals that are not negative. */
  lemma NonNegativeGrammar(d: ExactDecimal)
    ensures IsCanonicalNonNegative(Format(d)) <==> Value(d) >= 0.0
  {
    hide FormatMagnitude, Format, Value;
    FormatParts(d);
    SignOfValue(Normalize(d));
    if Normalize(d).coefficient < 0 {
      assert Format(d)[0] == '-';
      var whole := Format(d)[..FindDot(Format(d))];
      assert |whole| > 0 ==> whole[0] == '-';
    }
  }

  /** A normal decimal is zero or at least one in magnitude exactly when its whole part is not a padding zero. */
  lemma AtLeastOne(n: ExactDecimal)
    requires IsNormal(n)
    ensures Abs(Value(n)) >= 1.0 <==> Magnitude(n.coefficient) >= Pow10(n.scale)
  {
    SignOfValue(n);
    ScaledShift(1, 0, n.scale);
    ScaledMonotone(Magnitude(n.coefficient), Pow10(n.scale), n.scale);
    ScaledLinear(0, n.coefficient, n.scale);
    ScaledZero(n.scale);
  }

  /** The signed grammar accepts the printed forms of zero and of the magnitudes from one up. */
  lemma SignedGrammar(d: ExactDecimal)
    ensures IsCanonicalSigned(Format(d)) <==> Value(d) == 0.0 || Abs(Value(d)) >= 1.0
  {
    hide IsCanonicalNonNegative, Format, Pow10, Value, Abs;
    var n := Normalize(d);
    AtLeastOne(n);
    FormatParts(d);
    SignOfValue(n);
    PrintsZero(n.coefficient, n.scale);
    var m := FormatMagnitude(Magnitude(n.coefficient), n.scale);
    if n.coefficient < 0 {
      assert Format(d)[0] == '-' && Format(d)[1..] == m;
      NonNegativeGrammar(d);
    }
  }

  lemma PrintsZero(c: int, scale: nat)
    requires IsNormal(ExactDecimal(c, scale))
    ensures FormatMagnitude(Magnitude(c), scale) == "0" <==> c == 0
  {
    FormatMagnitudeShape(Magnitude(c), scale);
    ZeroText();
    hide FormatMagnitude, FractionLength, CoefficientDigits, IsCanonicalNonNegative, ParseDigits;
    if c == 0 { FormatZero(); }
  }

  lemma FormatZero()
    ensures FormatMagnitude(0, 0) == "0"
  {
  }

  lemma ZeroText()
    ensures IsCanonicalNonNegative("0") && FractionLength("0") == 0
    ensures CoefficientDigits("0") == "0" && ParseDigits("0") == 0
  {
    assert "0" + [] == "0";
    DotAfterDigits("0", []);
    assert ParseDigits([]) == 0;
  }

  // ---------------------------------------------------------------------------------------------
  // Printing what was parsed gives the text back
  // ---------------------------------------------------------------------------------------------

  lemma LastDigit(s: string)
    requires AllDigits(s) && |s| > 0
    ensures ParseDigits(s) % 10 == DigitValue(s[|s| - 1])
  {
    hide Digits;
    LastOfTen(ParseDigits(s[..|s| - 1]), DigitValue(s[|s| - 1]));
  }

  lemma LastOfTen(p: nat, d: int)
    requires 0 <= d < 10
    ensures (10 * p + d) % 10 == d
  {
  }

  /** A canonical magnitude with a fraction is in normal form, and is the print of it. */
  lemma FormatOfParseFraction(whole: string, fraction: string)
    requires IsWhole(whole) && IsFraction(fraction)
    ensures ParseDigits(whole + fraction) % 10 != 0
    ensures FormatMagnitude(ParseDigits(whole + fraction), |fraction|) == whole + "." + fraction
  {
    var digits := whole + fraction;
    LastDigit(digits);
    assert digits[|digits| - 1] == fraction[|fraction| - 1];
    PadOfParse(digits);
    if whole != "0" {
      assert digits[0] != '0';
      DigitsOfParse(digits);
    }
    assert PadStart(Digits(ParseDigits(digits)), |fraction| + 1) == digits;
    assert digits[..|digits| - |fraction|] == whole && digits[|digits| - |fraction|..] == fraction;
  }

  /** A canonical magnitude is already in normal form, and is the print of it. */
  lemma FormatOfParseMagnitude(s: string)
    requires IsCanonicalNonNegative(s)
    ensures var c, scale := ParseDigits(CoefficientDigits(s)), FractionLength(s);
            && (scale == 0 || c % 10 != 0)
            && FormatMagnitude(c, scale) == s
            && (c == 0 ==> s == "0")
  {
    var p := FindDot(s);
    if p == |s| {
      assert s[..p] == s;
      DigitsOfParse(s);
    } else {
      hide FormatMagnitude, ParseDigits;
      assert s == s[..p] + "." + s[p + 1..];
      FormatOfParseFraction(s[..p], s[p + 1..]);
    }
  }

  /** Every decimal text except minus zero is the print of its parse. */
  lemma FormatOfParse(s: string)
    requires IsDecimalText(s)
    ensures Format(Parse(s)) == s <==> s != "-0"
  {
    hide CoefficientDigits, FractionLength, ParseDigits, IsCanonicalNonNegative, FormatMagnitude;
    var u := Unsigned(s);
    FormatOfParseMagnitude(u);
    var c: int, scale := ParseDigits(CoefficientDigits(u)), FractionLength(u);
    NormalIsFixed(ExactDecimal(c, scale));
    NormalIsFixed(ExactDecimal(0 - c, scale));
    PrintsZero(c, scale);
    if u != s {
      assert s == "-" + u;
    } else {
      assert "" + u == u;
    }
  }

  lemma NormalIsFixed(d: ExactDecimal)
    requires IsNormal(d)
    ensures Normalize(Normalize(d)) == Normalize(d) == d
  {
  }

  /** Both grammars: printing a parsed text gives the same text. */
  lemma CanonicalRoundTrip(s: string)
    requires IsCanonicalNonNegative(s) || IsCanonicalSigned(s)
    ensures IsDecimalText(s) && Format(Parse(s)) == s
  {
    if IsCanonicalNonNegative(s) { assert IsDigit(s[0]) by { assert s[..FindDot(s)][0] == s[0]; } }
    ZeroText();
    FormatOfParse(s);
  }

  /** Two canonical texts of equal value are the same text. */
  lemma TextDeterminedByValue(s: string, t: string)
    requires IsCanonicalNonNegative(s) || IsCanonicalSigned(s)
    requires IsCanonicalNonNegative(t) || IsCanonicalSigned(t)
    ensures IsDecimalText(s) && IsDecimalText(t)
    ensures Value(Parse(s)) == Value(Parse(t)) <==> s == t
  {
    CanonicalRoundTrip(s);
    CanonicalRoundTrip(t);
    NormalizeCanonical(Parse(s), Parse(t));
  }

  /** The signed grammar leaves out one half, which the printer writes. */
  lemma HalfIsPrintedButNotSigned()
    ensures Format(ExactDecimal(5, 1)) == "0.5" && !IsCanonicalSigned("0.5")
  {
    SignedGrammar(ExactDecimal(5, 1));
    assert Digits(5) == "5";
    assert PadStart("5", 2) == "05";
  }
}
