/**
 What canonical JSON texts look like: the forms of numbers, the escapes of strings, the order of keys and
 the tags of the numbers that JSON does not have.
 */
module JsonForms {
  import opened KeyOrder
  import opened JsonNumber
  import opened JsonText
  import opened CanonicalJson

  predicate IsPlainText(s: string) { forall i :: 0 <= i < |s| ==> s[i] as int < 0x10000 }

  /** The code units of a text without characters outside the basic plane. */
  function Units(s: string): Text
    requires IsPlainText(s)
  {
    seq(|s|, i requires 0 <= i < |s| => s[i] as int)
  }

  // ---------------------------------------------------------------------------------------------
  // Numbers
  // ---------------------------------------------------------------------------------------------

  /** With the point at the place n, an exponent is written below 10^-6 and from 10^21 on; otherwise there is no point exactly if the digits end before it. */
  lemma WhichForm(d: Text, n: int)
    requires Placed(d, n)
    ensures var t := PlacedText(d, n);
            && (LETTER_E in t <==> n < -5 || n > 21)
            && (LETTER_E !in t && POINT !in t <==> |d| <= n <= 21)
            && (-5 <= n <= 0 ==> t[0] == NAUGHT && t[1] == POINT && |t| == 2 - n + |d| && t[2 - n..] == d)
            && (0 < n < |d| && n <= 21 ==> t[n] == POINT && t[..n] == d[..n] && t[n + 1..] == d[n..])
  {
    FormIsSeen(d, n);
  }

  lemma SomeDigits()
    ensures DigitUnits(0) == [48] && DigitUnits(1) == [49] && DigitUnits(6) == [54] && DigitUnits(7) == [55]
    ensures DigitUnits(12) == [49, 50] && DigitUnits(15) == [49, 53] && DigitUnits(21) == [50, 49]
  {
  }

  /** 0, -1, 1.5 and -0.000001. */
  lemma TextsWithoutExponent()
    ensures NumberText(Decimal(0, 0)) == [48] && NumberText(Decimal(-1, 0)) == [45, 49]
    ensures NumberText(Decimal(15, -1)) == [49, 46, 53]
    ensures NumberText(Decimal(-1, -6)) == [45, 48, 46, 48, 48, 48, 48, 48, 49]
  {
    hide DigitUnits;
    SomeDigits();
  }

  /** 10^20 in full; then 1e+21, 1e-7 and 1.2e-7. */
  lemma TextsWithExponent()
    ensures NumberText(Decimal(1, 20)) == [49] + Naughts(20)
    ensures NumberText(Decimal(1, 21)) == [49, 101, 43, 50, 49]
    ensures NumberText(Decimal(1, -7)) == [49, 101, 45, 55]
    ensures NumberText(Decimal(12, -8)) == [49, 46, 50, 101, 45, 55]
  {
    hide DigitUnits;
    SomeDigits();
  }

  // ---------------------------------------------------------------------------------------------
  // Strings
  // ---------------------------------------------------------------------------------------------

  /** Two characters for what has a short escape, six for other controls and for a surrogate on its own, and itself for all else. */
  lemma EscapeIs(u: Unit)
    ensures u == 8 ==> EscapeUnit(u) == Units("\\b")
    ensures u == 9 ==> EscapeUnit(u) == Units("\\t")
    ensures u == 10 ==> EscapeUnit(u) == Units("\\n")
    ensures u == 12 ==> EscapeUnit(u) == Units("\\f")
    ensures u == 13 ==> EscapeUnit(u) == Units("\\r")
    ensures u == 34 ==> EscapeUnit(u) == Units("\\\"")
    ensures u == 92 ==> EscapeUnit(u) == Units("\\\\")
    ensures 0xD800 <= u <= 0xDFFF || (u < 32 && u !in {8, 9, 10, 12, 13}) ==> |EscapeUnit(u)| == 6 && EscapeUnit(u)[..2] == Units("\\u")
    ensures 32 <= u && u != 34 && u != 92 && !(0xD800 <= u <= 0xDFFF) ==> EscapeUnit(u) == [u]
  {
  }

  /** The six characters are the number in hexadecimal digits, letters in lower case. */
  lemma HexEscapeIs(a: nat, b: nat, c: nat, d: nat)
    requires a < 16 && b < 16 && c < 16 && d < 16
    ensures HexEscape(a * 4096 + b * 256 + c * 16 + d) ==
              [92, 117, if a < 10 then 48 + a else 97 + a - 10, if b < 10 then 48 + b else 97 + b - 10,
               if c < 10 then 48 + c else 97 + c - 10, if d < 10 then 48 + d else 97 + d - 10]
  {
    var u := a * 4096 + b * 256 + c * 16 + d;
    assert u / 4096 == a && u / 256 == a * 16 + b && u / 16 == a * 256 + b * 16 + c && u % 16 == d;
  }

  /** A pair of surrogates stays as it is; whatever else stands there is escaped one by one. */
  lemma PairsStay(a: Unit, b: Unit, rest: Text)
    ensures 0xD800 <= a <= 0xDBFF && 0xDC00 <= b <= 0xDFFF ==> EscapeUnits([a, b] + rest) == [a, b] + EscapeUnits(rest)
    ensures !(0xD800 <= a <= 0xDBFF && 0xDC00 <= b <= 0xDFFF) ==> EscapeUnits([a, b] + rest) == EscapeUnit(a) + EscapeUnits([b] + rest)
    ensures EscapeUnits([a]) == EscapeUnit(a)
  {
    hide EscapeUnit;
    var s := [a, b] + rest;
    assert s[2..] == rest && s[1..] == [b] + rest && [a][1..] == [];
    assert EscapeUnits([]) == [];
  }

  /** [], {}, "", [null,true] and {"a":false}. */
  lemma SmallTexts()
    ensures Print(Arr([])) == [91, 93] && Print(Obj([])) == [123, 125] && Print(Str([])) == [34, 34]
    ensures Print(Arr([Null, Bool(true)])) == [91, 110, 117, 108, 108, 44, 116, 114, 117, 101, 93]
    ensures Print(Obj([Field([97], Bool(false))])) == [123, 34, 97, 34, 58, 102, 97, 108, 115, 101, 125]
  {
    assert EscapeUnits([]) == [] && [Null, Bool(true)][1..] == [Bool(true)];
    PairsStay(97, 97, []);
    assert EscapeUnit(97) == [97];
    var items, fields := [Null, Bool(true)], [Field([97], Bool(false))];
    assert PrintItems(items) == [110, 117, 108, 108, 44, 116, 114, 117, 101];
    assert PrintFields(fields) == [34, 97, 34, 58, 102, 97, 108, 115, 101];
  }

  // ---------------------------------------------------------------------------------------------
  // Records and tags
  // ---------------------------------------------------------------------------------------------

  /** a comes before b: it is smaller at the first code unit that differs, or ends before it. */
  ghost predicate UnitsAscend(a: Text, b: Text) {
    exists k :: 0 <= k <= |a| && k < |b| && a[..k] == b[..k] && (k == |a| || a[k] < b[k])
  }

  lemma ImageOrder(a: Text, b: Text)
    requires LexLess(Image(a), Image(b))
    ensures UnitsAscend(a, b)
  {
    LexLessIff(Image(a), Image(b));
    var k :| SmallerAt(Image(a), Image(b), k);
    assert Image(a[..k]) == Image(a)[..k] && Image(b[..k]) == Image(b)[..k];
    ImageInjective(a[..k], b[..k]);
    if k < |a| { UnitOrder(a[k], b[k]); }
  }

  lemma UnitOrder(u: Unit, v: Unit)
    requires UnitImage(u) < UnitImage(v)
    ensures u < v
  {
  }

  /** The keys of a printed record ascend by code units. */
  lemma KeysAscend(ms: seq<Member>, i: nat, j: nat)
    requires DistinctNames(ms) && i < j < |ms|
    ensures CanonicalValue(Record(ms)).Obj? && |CanonicalValue(Record(ms)).fields| == |ms|
    ensures UnitsAscend(CanonicalValue(Record(ms)).fields[i].name, CanonicalValue(Record(ms)).fields[j].name)
  {
    hide Sort, CanonicalMember, LexLess, UnitsAscend, Image;
    CanonicalMembersSorted(ms);
    var fields := Sort(CanonicalMembers(ms), FieldKey);
    assert |multiset(fields)| == |fields| && |multiset(CanonicalMembers(ms))| == |ms|;
    ImageOrder(fields[i].name, fields[j].name);
  }

  /** How the recovery writes the numbers that JSON does not have. */
  lemma TagsAre(n: int)
    ensures CanonicalValue(Big(n)) == Obj([Field(Units("$bigint"), Str(IntegerText(n)))])
    ensures CanonicalValue(Odd(NotANumber)) == Obj([Field(Units("$number"), Str(Units("NaN")))])
    ensures CanonicalValue(Odd(Infinite)) == Obj([Field(Units("$number"), Str(Units("Infinity")))])
    ensures CanonicalValue(Odd(NegativeInfinite)) == Obj([Field(Units("$number"), Str(Units("-Infinity")))])
    ensures CanonicalValue(Odd(NegativeZero)) == Obj([Field(Units("$number"), Str(Units("-0")))])
  {
    assert Units("$bigint") == BIGINT_TAG && Units("$number") == NUMBER_TAG;
    assert Units("NaN") == OddityText(NotANumber) && Units("Infinity") == OddityText(Infinite);
    assert Units("-Infinity") == OddityText(NegativeInfinite) && Units("-0") == OddityText(NegativeZero);
  }
}
