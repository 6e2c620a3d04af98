/**
 Canonical JSON text: authority rows are turned into trees, their records are printed with sorted
 keys, and two readings are compared as texts. The text determines the value, up to the order of
 keys.

 Strings are sequences of UTF-16 code units, as in the source.
 */
module JsonText {
  import opened JsonNumber

  datatype Field = Field(name: Text, value: Json)

  /** What JSON can carry. */
  datatype Json =
    | Null
    | Bool(b: bool)
    | Number(n: Finite)
    | Str(s: Text)
    | Arr(items: seq<Json>)
    | Obj(fields: seq<Field>)

  const QUOTE: Unit := 34
  const BACKSLASH: Unit := 92
  const COMMA: Unit := 44
  const COLON: Unit := 58
  const LEFT_BRACKET: Unit := 91
  const RIGHT_BRACKET: Unit := 93
  const LEFT_BRACE: Unit := 123
  const RIGHT_BRACE: Unit := 125
  const LETTER_U: Unit := 117

  const NULL_TEXT: Text := [110, 117, 108, 108]
  const TRUE_TEXT: Text := [116, 114, 117, 101]
  const FALSE_TEXT: Text := [102, 97, 108, 115, 101]

  // ---------------------------------------------------------------------------------------------
  // Printing
  // ---------------------------------------------------------------------------------------------

  predicate IsLead(u: Unit) { 0xD800 <= u < 0xDC00 }

  predicate IsTrail(u: Unit) { 0xDC00 <= u < 0xE000 }

  function HexDigit(v: int): Unit
    requires 0 <= v < 16
  {
    if v < 10 then 48 + v else 87 + v
  }

  /** A reverse solidus, the letter u and four lower-case hexadecimal digits. */
  function HexEscape(u: Unit): Text {
    [BACKSLASH, LETTER_U, HexDigit(u / 4096), HexDigit(u / 256 % 16), HexDigit(u / 16 % 16), HexDigit(u % 16)]
  }

  /** A code unit that is not half of a surrogate pair (section 7 of RFC 8259, as JSON.stringify applies it). */
  function EscapeUnit(u: Unit): Text {
    if u == 8 then [BACKSLASH, 98]
    else if u == 9 then [BACKSLASH, 116]
    else if u == 10 then [BACKSLASH, 110]
    else if u == 12 then [BACKSLASH, 102]
    else if u == 13 then [BACKSLASH, 114]
    else if u == QUOTE || u == BACKSLASH then [BACKSLASH, u]
    else if u < 32 || IsLead(u) || IsTrail(u) then HexEscape(u)
    else [u]
  }

  /** Surrogate pairs stay as they are; a surrogate on its own is escaped. */
  function EscapeUnits(s: Text): Text {
    if s == [] then []
    else if IsLead(s[0]) && |s| > 1 && IsTrail(s[1]) then [s[0], s[1]] + EscapeUnits(s[2..])
    else EscapeUnit(s[0]) + EscapeUnits(s[1..])
  }

  function Quote(s: Text): Text { [QUOTE] + EscapeUnits(s) + [QUOTE] }

  /** JSON.stringify without indentation. */
  function Print(j: Json): Text
    decreases j
  {
    match j
    case Null => NULL_TEXT
    case Bool(b) => if b then TRUE_TEXT else FALSE_TEXT
    case Number(n) => NumberText(n)
    case Str(s) => Quote(s)
    case Arr(items) => [LEFT_BRACKET] + PrintItems(items) + [RIGHT_BRACKET]
    case Obj(fields) => [LEFT_BRACE] + PrintFields(fields) + [RIGHT_BRACE]
  }

  function PrintItems(items: seq<Json>): Text
    decreases items
  {
    if items == [] then []
    else if |items| == 1 then Print(items[0])
    else Print(items[0]) + [COMMA] + PrintItems(items[1..])
  }

  function PrintField(f: Field): Text
    decreases f
  {
    Quote(f.name) + [COLON] + Print(f.value)
  }

  function PrintFields(fields: seq<Field>): Text
    decreases fields
  {
    if fields == [] then []
    else if |fields| == 1 then PrintField(fields[0])
    else PrintField(fields[0]) + [COMMA] + PrintFields(fields[1..])
  }

  // ---------------------------------------------------------------------------------------------
  // Strings
  // ---------------------------------------------------------------------------------------------

  datatype Unquoted = Unquoted(s: Text, rest: Text) | Malformed

  predicate IsHex(u: Unit) { IsDigitUnit(u) || 97 <= u < 103 }

  function HexValue(u: Unit): int
    requires IsHex(u)
    ensures 0 <= HexValue(u) < 16
  {
    if IsDigitUnit(u) then u - 48 else u - 87
  }

  function Prepend(u: Unit, r: Unquoted): Unquoted {
    if r.Unquoted? then Unquoted([u] + r.s, r.rest) else r
  }

  /** Read the inside of a JSON string up to its closing quotation mark. */
  function Unquote(t: Text): Unquoted {
    if t == [] then Malformed
    else if t[0] == QUOTE then Unquoted([], t[1..])
    else if t[0] != BACKSLASH then Prepend(t[0], Unquote(t[1..]))
    else if |t| < 2 then Malformed
    else if t[1] == 98 then Prepend(8, Unquote(t[2..]))
    else if t[1] == 116 then Prepend(9, Unquote(t[2..]))
    else if t[1] == 110 then Prepend(10, Unquote(t[2..]))
    else if t[1] == 102 then Prepend(12, Unquote(t[2..]))
    else if t[1] == 114 then Prepend(13, Unquote(t[2..]))
    else if t[1] == QUOTE || t[1] == BACKSLASH then Prepend(t[1], Unquote(t[2..]))
    else if t[1] != LETTER_U || |t| < 6 then Malformed
    else if !(IsHex(t[2]) && IsHex(t[3]) && IsHex(t[4]) && IsHex(t[5])) then Malformed
    else Prepend(HexValue(t[2]) * 4096 + HexValue(t[3]) * 256 + HexValue(t[4]) * 16 + HexValue(t[5]), Unquote(t[6..]))
  }

  lemma HexRoundTrip(u: Unit)
    ensures u == u / 4096 * 4096 + u / 256 % 16 * 256 + u / 16 % 16 * 16 + u % 16
    ensures u / 4096 < 16
  {
    var a, b := u / 16, u / 256;
    assert b == a / 16 && u / 4096 == b / 16;
    assert u == a * 16 + u % 16 && a == b * 16 + a % 16 && b == b / 16 * 16 + b % 16;
  }

  lemma HexDigitValue(v: int)
    requires 0 <= v < 16
    ensures IsHex(HexDigit(v)) && HexValue(HexDigit(v)) == v
  {
  }

  /** Reading the four digits of an escape. */
  lemma UnquoteFour(t: Text)
    requires |t| >= 6 && t[0] == BACKSLASH && t[1] == LETTER_U
    requires IsHex(t[2]) && IsHex(t[3]) && IsHex(t[4]) && IsHex(t[5])
    ensures Unquote(t) == Prepend(HexValue(t[2]) * 4096 + HexValue(t[3]) * 256 + HexValue(t[4]) * 16 + HexValue(t[5]), Unquote(t[6..]))
  {
    hide HexValue, IsHex, Prepend;
  }

  lemma UnquoteHex(u: Unit, rest: Text)
    ensures Unquote(HexEscape(u) + rest) == Prepend(u, Unquote(rest))
  {
    hide Unquote, HexValue, HexDigit, IsHex, Prepend;
    var t := HexEscape(u) + rest;
    assert t[6..] == rest;
    HexRoundTrip(u);
    HexDigitValue(u / 4096);
    HexDigitValue(u / 256 % 16);
    HexDigitValue(u / 16 % 16);
    HexDigitValue(u % 16);
    UnquoteFour(t);
  }

  lemma UnquoteUnit(u: Unit, rest: Text)
    ensures Unquote(EscapeUnit(u) + rest) == Prepend(u, Unquote(rest))
  {
    var t := EscapeUnit(u) + rest;
    if |EscapeUnit(u)| == 1 {
      assert t[1..] == rest;
    } else if |EscapeUnit(u)| == 2 {
      assert t[2..] == rest;
    } else {
      UnquoteHex(u, rest);
    }
  }

  lemma UnquoteLiteral(u: Unit, rest: Text)
    requires u != QUOTE && u != BACKSLASH
    ensures Unquote([u] + rest) == Prepend(u, Unquote(rest))
  {
    assert ([u] + rest)[1..] == rest;
  }

  lemma Reassociate(p: Text, q: Text, r: Text)
    ensures (p + q) + r == p + (q + r)
  {
  }

  lemma UnquotePair(s: Text, rest: Text)
    requires |s| > 1 && IsLead(s[0]) && IsTrail(s[1])
    requires Unquote(EscapeUnits(s[2..]) + ([QUOTE] + rest)) == Unquoted(s[2..], rest)
    ensures Unquote(EscapeUnits(s) + ([QUOTE] + rest)) == Unquoted(s, rest)
  {
    hide Unquote, EscapeUnit, EscapeUnits;
    var tail := EscapeUnits(s[2..]) + ([QUOTE] + rest);
    UnquoteLiteral(s[1], tail);
    UnquoteLiteral(s[0], [s[1]] + tail);
    PairText(s);
    Reassociate([s[0], s[1]], EscapeUnits(s[2..]), [QUOTE] + rest);
    assert [s[0], s[1]] + tail == [s[0]] + ([s[1]] + tail);
    assert s == [s[0]] + ([s[1]] + s[2..]);
  }

  lemma PairText(s: Text)
    requires |s| > 1 && IsLead(s[0]) && IsTrail(s[1])
    ensures EscapeUnits(s) == [s[0], s[1]] + EscapeUnits(s[2..])
  {
    hide EscapeUnit;
  }

  lemma UnquoteSingle(s: Text, rest: Text)
    requires s != [] && !(IsLead(s[0]) && |s| > 1 && IsTrail(s[1]))
    requires Unquote(EscapeUnits(s[1..]) + ([QUOTE] + rest)) == Unquoted(s[1..], rest)
    ensures Unquote(EscapeUnits(s) + ([QUOTE] + rest)) == Unquoted(s, rest)
  {
    hide Unquote, EscapeUnit, EscapeUnits;
    SingleText(s);
    Reassociate(EscapeUnit(s[0]), EscapeUnits(s[1..]), [QUOTE] + rest);
    UnquoteUnit(s[0], EscapeUnits(s[1..]) + ([QUOTE] + rest));
    assert s == [s[0]] + s[1..];
  }

  lemma SingleText(s: Text)
    requires s != [] && !(IsLead(s[0]) && |s| > 1 && IsTrail(s[1]))
    ensures EscapeUnits(s) == EscapeUnit(s[0]) + EscapeUnits(s[1..])
  {
    hide EscapeUnit;
  }

  /** Reading back what was quoted gives the string and leaves what followed it. */
  lemma {:induction false} UnquoteOfEscaped(s: Text, rest: Text)
    ensures Unquote(EscapeUnits(s) + ([QUOTE] + rest)) == Unquoted(s, rest)
  {
    hide EscapeUnit, Unquote;
    if s == [] {
      UnquoteEnd(rest);
      assert EscapeUnits(s) + ([QUOTE] + rest) == [QUOTE] + rest;
    } else if IsLead(s[0]) && |s| > 1 && IsTrail(s[1]) {
      UnquoteOfEscaped(s[2..], rest);
      UnquotePair(s, rest);
    } else {
      UnquoteOfEscaped(s[1..], rest);
      UnquoteSingle(s, rest);
    }
  }

  lemma UnquoteEnd(rest: Text)
    ensures Unquote([QUOTE] + rest) == Unquoted([], rest)
  {
    assert ([QUOTE] + rest)[1..] == rest;
  }

  lemma QuoteInjective(s: Text, t: Text, ra: Text, rb: Text)
    requires Quote(s) + ra == Quote(t) + rb
    ensures s == t && ra == rb
  {
    hide EscapeUnits, Unquote;
    assert (Quote(s) + ra)[1..] == EscapeUnits(s) + ([QUOTE] + ra);
    assert (Quote(t) + rb)[1..] == EscapeUnits(t) + ([QUOTE] + rb);
    UnquoteOfEscaped(s, ra);
    UnquoteOfEscaped(t, rb);
  }

  // ---------------------------------------------------------------------------------------------
  // The text determines the tree
  // ---------------------------------------------------------------------------------------------

  /** Where a number may end. */
  predicate Stops(r: Text) { Ends(r, IsNumeric) }

  /** The first unit of a printed tree tells its kind. */
  predicate Starts(j: Json, u: Unit) {
    match j
    case Null => u == 110
    case Bool(b) => u == if b then 116 else 102
    case Number(_) => u == MINUS || IsDigitUnit(u)
    case Str(_) => u == QUOTE
    case Arr(_) => u == LEFT_BRACKET
    case Obj(_) => u == LEFT_BRACE
  }

  lemma PrintStarts(j: Json)
    ensures Print(j) != [] && Starts(j, Print(j)[0])
  {
    hide PrintItems, PrintFields, EscapeUnits, NumberText;
    if j.Number? { NumberTextShape(j.n); }
  }

  lemma {:induction false} PrintInjective(a: Json, b: Json, ra: Text, rb: Text)
    requires Print(a) + ra == Print(b) + rb && Stops(ra) && Stops(rb)
    ensures a == b && ra == rb
    decreases a
  {
    hide PrintItems, PrintFields, Quote, NumberText;
    PrintStarts(a);
    PrintStarts(b);
    assert (Print(a) + ra)[0] == Print(a)[0] && (Print(b) + rb)[0] == Print(b)[0];
    match a
    case Null => LiteralRest(NULL_TEXT, ra, rb);
    case Bool(v) => LiteralRest(if v then TRUE_TEXT else FALSE_TEXT, ra, rb);
    case Number(n) => NumberInjective(n, b.n, ra, rb);
    case Str(s) => QuoteInjective(s, b.s, ra, rb);
    case Arr(items) =>
      assert (Print(a) + ra)[1..] == PrintItems(items) + ([RIGHT_BRACKET] + ra);
      assert (Print(b) + rb)[1..] == PrintItems(b.items) + ([RIGHT_BRACKET] + rb);
      ItemsInjective(items, b.items, ra, rb);
    case Obj(fields) =>
      assert (Print(a) + ra)[1..] == PrintFields(fields) + ([RIGHT_BRACE] + ra);
      assert (Print(b) + rb)[1..] == PrintFields(b.fields) + ([RIGHT_BRACE] + rb);
      FieldsInjective(fields, b.fields, ra, rb);
  }

  lemma LiteralRest(t: Text, ra: Text, rb: Text)
    requires t + ra == t + rb
    ensures ra == rb
  {
    assert (t + ra)[|t|..] == ra && (t + rb)[|t|..] == rb;
  }

  /** What follows the first item. */
  function ItemsTail(items: seq<Json>, r: Text): Text
    requires items != []
  {
    if |items| == 1 then [RIGHT_BRACKET] + r else [COMMA] + (PrintItems(items[1..]) + ([RIGHT_BRACKET] + r))
  }

  lemma ItemsSplit(items: seq<Json>, r: Text)
    requires items != []
    ensures PrintItems(items) + ([RIGHT_BRACKET] + r) == Print(items[0]) + ItemsTail(items, r)
  {
    hide Print;
  }

  lemma {:induction false} ItemsInjective(xs: seq<Json>, ys: seq<Json>, ra: Text, rb: Text)
    requires PrintItems(xs) + ([RIGHT_BRACKET] + ra) == PrintItems(ys) + ([RIGHT_BRACKET] + rb)
    ensures xs == ys && ra == rb
    decreases xs
  {
    hide *;
    if xs == [] || ys == [] {
      NoItems(xs, ys, ra, rb);
    } else {
      ItemsSplit(xs, ra);
      ItemsSplit(ys, rb);
      ItemsTailRest(xs, ra);
      ItemsTailRest(ys, rb);
      PrintInjective(xs[0], ys[0], ItemsTail(xs, ra), ItemsTail(ys, rb));
      if |xs| > 1 {
        ItemsInjective(xs[1..], ys[1..], ra, rb);
      }
      assert xs == [xs[0]] + xs[1..] && ys == [ys[0]] + ys[1..];
    }
  }

  lemma NoItems(xs: seq<Json>, ys: seq<Json>, ra: Text, rb: Text)
    requires PrintItems(xs) + ([RIGHT_BRACKET] + ra) == PrintItems(ys) + ([RIGHT_BRACKET] + rb)
    requires xs == [] || ys == []
    ensures xs == ys && ra == rb
  {
    hide PrintItems;
    EmptyItems(xs, ra);
    EmptyItems(ys, rb);
    assert ([RIGHT_BRACKET] + ra)[1..] == ra && ([RIGHT_BRACKET] + rb)[1..] == rb;
  }

  lemma ItemsTailRest(xs: seq<Json>, r: Text)
    requires xs != []
    ensures ItemsTail(xs, r) != [] && Stops(ItemsTail(xs, r))
    ensures |xs| == 1 <==> ItemsTail(xs, r)[0] == RIGHT_BRACKET
    ensures |xs| == 1 ==> ItemsTail(xs, r)[1..] == r
    ensures |xs| > 1 ==> ItemsTail(xs, r)[1..] == PrintItems(xs[1..]) + ([RIGHT_BRACKET] + r)
  {
    hide PrintItems;
  }

  lemma EmptyItems(items: seq<Json>, r: Text)
    ensures items == [] <==> (PrintItems(items) + ([RIGHT_BRACKET] + r))[0] == RIGHT_BRACKET
    ensures items == [] ==> PrintItems(items) + ([RIGHT_BRACKET] + r) == [RIGHT_BRACKET] + r
  {
    if items != [] {
      ItemsSplit(items, r);
      PrintStarts(items[0]);
    }
  }

  function FieldsTail(fields: seq<Field>, r: Text): Text
    requires fields != []
  {
    if |fields| == 1 then [RIGHT_BRACE] + r else [COMMA] + (PrintFields(fields[1..]) + ([RIGHT_BRACE] + r))
  }

  lemma FieldsSplit(fields: seq<Field>, r: Text)
    requires fields != []
    ensures PrintFields(fields) + ([RIGHT_BRACE] + r) == PrintField(fields[0]) + FieldsTail(fields, r)
  {
    hide PrintField;
  }

  lemma {:induction false} FieldInjective(f: Field, g: Field, ra: Text, rb: Text)
    requires PrintField(f) + ra == PrintField(g) + rb && Stops(ra) && Stops(rb)
    ensures f == g && ra == rb
    decreases f
  {
    hide Print, Quote;
    assert PrintField(f) + ra == Quote(f.name) + ([COLON] + (Print(f.value) + ra));
    assert PrintField(g) + rb == Quote(g.name) + ([COLON] + (Print(g.value) + rb));
    var ta, tb := [COLON] + (Print(f.value) + ra), [COLON] + (Print(g.value) + rb);
    QuoteInjective(f.name, g.name, ta, tb);
    assert ta[1..] == Print(f.value) + ra && tb[1..] == Print(g.value) + rb;
    PrintInjective(f.value, g.value, ra, rb);
  }

  lemma {:induction false} FieldsInjective(xs: seq<Field>, ys: seq<Field>, ra: Text, rb: Text)
    requires PrintFields(xs) + ([RIGHT_BRACE] + ra) == PrintFields(ys) + ([RIGHT_BRACE] + rb)
    ensures xs == ys && ra == rb
    decreases xs
  {
    hide *;
    if xs == [] || ys == [] {
      NoFields(xs, ys, ra, rb);
    } else {
      FieldsSplit(xs, ra);
      FieldsSplit(ys, rb);
      FieldsTailRest(xs, ra);
      FieldsTailRest(ys, rb);
      FieldInjective(xs[0], ys[0], FieldsTail(xs, ra), FieldsTail(ys, rb));
      if |xs| > 1 {
        FieldsInjective(xs[1..], ys[1..], ra, rb);
      }
      assert xs == [xs[0]] + xs[1..] && ys == [ys[0]] + ys[1..];
    }
  }

  lemma NoFields(xs: seq<Field>, ys: seq<Field>, ra: Text, rb: Text)
    requires PrintFields(xs) + ([RIGHT_BRACE] + ra) == PrintFields(ys) + ([RIGHT_BRACE] + rb)
    requires xs == [] || ys == []
    ensures xs == ys && ra == rb
  {
    hide PrintFields;
    EmptyFields(xs, ra);
    EmptyFields(ys, rb);
    assert ([RIGHT_BRACE] + ra)[1..] == ra && ([RIGHT_BRACE] + rb)[1..] == rb;
  }

  lemma FieldsTailRest(xs: seq<Field>, r: Text)
    requires xs != []
    ensures FieldsTail(xs, r) != [] && Stops(FieldsTail(xs, r))
    ensures |xs| == 1 <==> FieldsTail(xs, r)[0] == RIGHT_BRACE
    ensures |xs| == 1 ==> FieldsTail(xs, r)[1..] == r
    ensures |xs| > 1 ==> FieldsTail(xs, r)[1..] == PrintFields(xs[1..]) + ([RIGHT_BRACE] + r)
  {
    hide PrintFields;
  }

  lemma EmptyFields(fields: seq<Field>, r: Text)
    ensures fields == [] <==> (PrintFields(fields) + ([RIGHT_BRACE] + r))[0] == RIGHT_BRACE
    ensures fields == [] ==> PrintFields(fields) + ([RIGHT_BRACE] + r) == [RIGHT_BRACE] + r
  {
    if fields != [] {
      FieldsSplit(fields, r);
      assert PrintField(fields[0])[0] == QUOTE;
    }
  }

  /** Two trees with the same text are the same tree. */
  lemma TextDeterminesTree(a: Json, b: Json)
    ensures Print(a) == Print(b) <==> a == b
  {
    hide *;
    if Print(a) == Print(b) {
      assert Print(a) + [] == Print(b) + [];
      EmptyStops();
      PrintInjective(a, b, [], []);
    }
  }

  lemma EmptyStops()
    ensures Stops([])
  {
  }
}
