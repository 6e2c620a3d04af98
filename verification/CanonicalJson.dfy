/**
 Canonical authority text. A reading of the persisted authority is a tree; before it is printed its
 records are sorted by key, and integers of unbounded size and the numbers JSON does not have are
 replaced by tagged records. Equal texts mean equal values, except that a record which looks like a
 tag is taken for the number it names.
 */
module CanonicalJson {
  import opened JsonNumber
  import opened JsonText
  import opened KeyOrder

  datatype Oddity = NotANumber | Infinite | NegativeInfinite | NegativeZero

  datatype Member = Member(name: Text, value: Tree)

  datatype Tree =
    | Nothing
    | Truth(holds: bool)
    | Numeral(numeral: Finite)
    | Big(big: int)
    | Odd(which: Oddity)
    | Words(words: Text)
    | Listed(elements: seq<Tree>)
    | Record(members: seq<Member>)

  /** What a tree denotes: a record is a map from names to values. */
  datatype Value =
    | Scalar(scalar: Tree)
    | List(list: seq<Value>)
    | Entries(entries: map<Text, Value>)

  const BIGINT_TAG: Text := [36, 98, 105, 103, 105, 110, 116]
  const NUMBER_TAG: Text := [36, 110, 117, 109, 98, 101, 114]

  function OddityText(which: Oddity): Text {
    match which
    case NotANumber => [78, 97, 78]
    case Infinite => [73, 110, 102, 105, 110, 105, 116, 121]
    case NegativeInfinite => [45, 73, 110, 102, 105, 110, 105, 116, 121]
    case NegativeZero => [45, 48]
  }

  // ---------------------------------------------------------------------------------------------
  // Names in order
  // ---------------------------------------------------------------------------------------------

  /** A code unit as a character, keeping the order: the surrogate range is shifted out of the way. */
  function UnitImage(u: Unit): char {
    if u < 0xD800 then u as char else (u + 0x2000) as char
  }

  function Image(s: Text): string {
    seq(|s|, i requires 0 <= i < |s| => UnitImage(s[i]))
  }

  lemma UnitImageInjective(a: Unit, b: Unit)
    requires UnitImage(a) == UnitImage(b)
    ensures a == b
  {
    assert UnitImage(a) as int == UnitImage(b) as int;
  }

  lemma ImageInjective(a: Text, b: Text)
    requires Image(a) == Image(b)
    ensures a == b
  {
    forall i | 0 <= i < |a| ensures a[i] == b[i] {
      assert Image(a)[i] == Image(b)[i];
      UnitImageInjective(a[i], b[i]);
    }
  }

  /** Key order of a record: by code units. */
  function FieldKey(f: Field): Key { Key(0, Image(f.name)) }

  function MemberKey(m: Member): Key { Key(0, Image(m.name)) }

  // ---------------------------------------------------------------------------------------------
  // Trees
  // ---------------------------------------------------------------------------------------------

  predicate DistinctNames(ms: seq<Member>) {
    forall i, j :: 0 <= i < j < |ms| ==> ms[i].name != ms[j].name
  }

  /** No record has two members of one name. */
  predicate WellFormed(t: Tree) {
    match t
    case Listed(elements) => forall x :: x in elements ==> WellFormed(x)
    case Record(ms) => DistinctNames(ms) && forall m :: m in ms ==> WellFormed(m.value)
    case _ => true
  }

  /** A tree of what JSON can carry. */
  predicate Plain(t: Tree) {
    match t
    case Big(_) => false
    case Odd(_) => false
    case Listed(elements) => forall x :: x in elements ==> Plain(x)
    case Record(ms) => forall m :: m in ms ==> Plain(m.value)
    case _ => true
  }

  lemma SameNameSameMember(ms: seq<Member>, m: Member, n: Member)
    requires DistinctNames(ms) && m in ms && n in ms && m.name == n.name
    ensures m == n
  {
    var i :| 0 <= i < |ms| && ms[i] == m;
    var j :| 0 <= j < |ms| && ms[j] == n;
  }

  function ValueOf(t: Tree): Value
    decreases t
  {
    match t
    case Listed(elements) => List(ValuesOf(elements))
    case Record(ms) => Entries(EntriesOf(ms))
    case _ => Scalar(t)
  }

  function ValuesOf(elements: seq<Tree>): (r: seq<Value>)
    ensures |r| == |elements|
    ensures forall i :: 0 <= i < |r| ==> r[i] == ValueOf(elements[i])
    decreases elements
  {
    seq(|elements|, i requires 0 <= i < |elements| => ValueOf(elements[i]))
  }

  function EntriesOf(ms: seq<Member>): map<Text, Value>
    decreases ms
  {
    if ms == [] then map[] else EntriesOf(ms[1..])[ms[0].name := ValueOf(ms[0].value)]
  }

  // ---------------------------------------------------------------------------------------------
  // Canonical form
  // ---------------------------------------------------------------------------------------------

  /** canonicalValue of the recovery. */
  function CanonicalValue(t: Tree): Json {
    match t
    case Nothing => Null
    case Truth(b) => Bool(b)
    case Numeral(n) => Number(n)
    case Big(n) => Obj([Field(BIGINT_TAG, Str(IntegerText(n)))])
    case Odd(which) => Obj([Field(NUMBER_TAG, Str(OddityText(which)))])
    case Words(s) => Str(s)
    case Listed(elements) => Arr(CanonicalElements(elements))
    case Record(ms) => Obj(Sort(CanonicalMembers(ms), FieldKey))
  }

  function CanonicalElements(elements: seq<Tree>): (r: seq<Json>)
    ensures |r| == |elements|
    ensures forall i :: 0 <= i < |r| ==> r[i] == CanonicalValue(elements[i])
  {
    seq(|elements|, i requires 0 <= i < |elements| => CanonicalValue(elements[i]))
  }

  function CanonicalMembers(ms: seq<Member>): (r: seq<Field>)
    ensures |r| == |ms|
    ensures forall i :: 0 <= i < |r| ==> r[i] == CanonicalMember(ms[i])
  {
    seq(|ms|, i requires 0 <= i < |ms| => CanonicalMember(ms[i]))
  }

  function CanonicalMember(m: Member): Field {
    Field(m.name, CanonicalValue(m.value))
  }

  /** canonicalJson of the recovery. */
  function RecoveryText(t: Tree): Text { Print(CanonicalValue(t)) }

  // ---------------------------------------------------------------------------------------------
  // Records that look like tags
  // ---------------------------------------------------------------------------------------------

  ghost predicate IsIntegerText(s: Text) { exists n: int :: IntegerText(n) == s }

  ghost predicate IsOddityText(s: Text) { exists which: Oddity :: OddityText(which) == s }

  /** A record that prints like a tagged number. */
  ghost predicate Mimic(t: Tree) {
    t.Record? && |t.members| == 1 && t.members[0].value.Words? &&
    var m := t.members[0];
    (m.name == BIGINT_TAG && IsIntegerText(m.value.words)) || (m.name == NUMBER_TAG && IsOddityText(m.value.words))
  }

  ghost predicate NoMimics(t: Tree) {
    !Mimic(t) &&
    match t
    case Listed(elements) => forall x :: x in elements ==> NoMimics(x)
    case Record(ms) => forall m :: m in ms ==> NoMimics(m.value)
    case _ => true
  }

  /** The number a mimic names. */
  ghost function Named(t: Tree): Tree
    requires Mimic(t)
  {
    var m := t.members[0];
    if m.name == BIGINT_TAG then var n :| IntegerText(n) == m.value.words; Big(n)
    else var which :| OddityText(which) == m.value.words; Odd(which)
  }

  /** The tree with every mimic replaced by the number it names. */
  ghost function Unmimic(t: Tree): Tree {
    if Mimic(t) then Named(t)
    else match t
      case Listed(elements) => Listed(UnmimicElements(elements))
      case Record(ms) => Record(UnmimicMembers(ms))
      case _ => t
  }

  ghost function UnmimicElements(elements: seq<Tree>): (r: seq<Tree>)
    ensures |r| == |elements|
    ensures forall i :: 0 <= i < |r| ==> r[i] == Unmimic(elements[i])
  {
    seq(|elements|, i requires 0 <= i < |elements| => Unmimic(elements[i]))
  }

  ghost function UnmimicMembers(ms: seq<Member>): (r: seq<Member>)
    ensures |r| == |ms|
    ensures forall i :: 0 <= i < |r| ==> r[i] == UnmimicMember(ms[i])
  {
    seq(|ms|, i requires 0 <= i < |ms| => UnmimicMember(ms[i]))
  }

  ghost function UnmimicMember(m: Member): Member { Member(m.name, Unmimic(m.value)) }

  lemma NamedPrintsAlike(t: Tree)
    requires Mimic(t)
    ensures CanonicalValue(Named(t)) == CanonicalValue(t)
    ensures Named(t).Big? || Named(t).Odd?
  {
    var m := t.members[0];
    assert CanonicalMember(m) == Field(m.name, Str(m.value.words));
    assert CanonicalMembers(t.members) == [CanonicalMember(m)];
    SortOne(Field(m.name, Str(m.value.words)));
    assert [Field(m.name, Str(m.value.words))] == CanonicalMembers(t.members);
  }

  lemma SortOne(f: Field)
    ensures Sort([f], FieldKey) == [f]
  {
    SortOfSorted([f], FieldKey);
  }

  /** Replacing mimics does not change the canonical form, and leaves none. */
  lemma {:induction false} UnmimicCanonical(t: Tree)
    ensures CanonicalValue(Unmimic(t)) == CanonicalValue(t)
    decreases t
  {
    if Mimic(t) {
      NamedPrintsAlike(t);
    } else if t.Listed? {
      forall i | 0 <= i < |t.elements| ensures CanonicalValue(Unmimic(t.elements[i])) == CanonicalValue(t.elements[i]) {
        UnmimicCanonical(t.elements[i]);
      }
      assert CanonicalElements(UnmimicElements(t.elements)) == CanonicalElements(t.elements);
    } else if t.Record? {
      forall i | 0 <= i < |t.members| ensures CanonicalMember(UnmimicMember(t.members[i])) == CanonicalMember(t.members[i]) {
        UnmimicCanonical(t.members[i].value);
      }
      assert CanonicalMembers(UnmimicMembers(t.members)) == CanonicalMembers(t.members);
    }
  }

  lemma {:induction false} UnmimicLeavesNone(t: Tree)
    ensures NoMimics(Unmimic(t))
    decreases t
  {
    if Mimic(t) {
      NamedPrintsAlike(t);
    } else if t.Listed? {
      forall x | x in UnmimicElements(t.elements) ensures NoMimics(x) {
        var i :| 0 <= i < |t.elements| && x == UnmimicElements(t.elements)[i];
        UnmimicLeavesNone(t.elements[i]);
      }
    } else if t.Record? {
      forall m | m in UnmimicMembers(t.members) ensures NoMimics(m.value) {
        var i :| 0 <= i < |t.members| && m == UnmimicMembers(t.members)[i];
        UnmimicLeavesNone(t.members[i].value);
      }
      UnmimicNotMimic(t);
    }
  }

  lemma UnmimicNotMimic(t: Tree)
    requires t.Record? && !Mimic(t)
    ensures !Mimic(Record(UnmimicMembers(t.members)))
  {
    if |t.members| == 1 {
      var m := t.members[0];
      assert UnmimicMembers(t.members)[0] == UnmimicMember(m);
      if Mimic(m.value) { NamedPrintsAlike(m.value); }
      assert Unmimic(m.value).Words? ==> Unmimic(m.value) == m.value;
    }
  }

  lemma {:induction false} UnmimicWellFormed(t: Tree)
    requires WellFormed(t)
    ensures WellFormed(Unmimic(t))
    decreases t
  {
    if Mimic(t) {
      NamedPrintsAlike(t);
    } else if t.Listed? {
      forall x | x in UnmimicElements(t.elements) ensures WellFormed(x) {
        var i :| 0 <= i < |t.elements| && x == UnmimicElements(t.elements)[i];
        assert t.elements[i] in t.elements;
        UnmimicWellFormed(t.elements[i]);
      }
    } else if t.Record? {
      forall m | m in UnmimicMembers(t.members) ensures WellFormed(m.value) {
        var i :| 0 <= i < |t.members| && m == UnmimicMembers(t.members)[i];
        assert t.members[i] in t.members;
        UnmimicWellFormed(t.members[i].value);
      }
    }
  }

  /** A tree without mimics is left alone, and only such a tree. */
  lemma {:induction false} UnmimicIsIdentityIff(t: Tree)
    ensures Unmimic(t) == t <==> NoMimics(t)
    decreases t
  {
    UnmimicLeavesNone(t);
    if NoMimics(t) {
      if t.Listed? {
        forall i | 0 <= i < |t.elements| ensures Unmimic(t.elements[i]) == t.elements[i] {
          assert t.elements[i] in t.elements;
          UnmimicIsIdentityIff(t.elements[i]);
        }
        assert UnmimicElements(t.elements) == t.elements;
      } else if t.Record? {
        forall i | 0 <= i < |t.members| ensures UnmimicMember(t.members[i]) == t.members[i] {
          assert t.members[i] in t.members;
          UnmimicIsIdentityIff(t.members[i].value);
        }
        assert UnmimicMembers(t.members) == t.members;
      }
    }
  }

  // ---------------------------------------------------------------------------------------------
  // Equal forms, equal values
  // ---------------------------------------------------------------------------------------------

  ghost predicate Comparable(a: Tree, b: Tree) {
    WellFormed(a) && WellFormed(b) && ((Plain(a) && Plain(b)) || (NoMimics(a) && NoMimics(b)))
  }

  /** A field of a canonical record comes from a member. */
  lemma SortedMember(ms: seq<Member>, f: Field)
    ensures f in Sort(CanonicalMembers(ms), FieldKey) <==> exists m :: m in ms && CanonicalMember(m) == f
  {
    hide Sort, CanonicalMember;
    assert f in Sort(CanonicalMembers(ms), FieldKey) <==> f in multiset(Sort(CanonicalMembers(ms), FieldKey));
    assert f in CanonicalMembers(ms) <==> f in multiset(CanonicalMembers(ms));
    if m :| m in ms && CanonicalMember(m) == f {
      var i :| 0 <= i < |ms| && ms[i] == m;
      assert CanonicalMembers(ms)[i] == f;
    }
    if f in CanonicalMembers(ms) {
      var i :| 0 <= i < |ms| && CanonicalMembers(ms)[i] == f;
      assert ms[i] in ms;
    }
  }

  /** A record whose canonical form has a single text field has that single member. */
  lemma {:induction false} SingleMember(ms: seq<Member>, f: Field)
    requires Sort(CanonicalMembers(ms), FieldKey) == [f] && f.value.Str?
    ensures |ms| == 1 && ms[0] == Member(f.name, Words(f.value.s))
  {
    hide Sort;
    var fs := CanonicalMembers(ms);
    assert multiset(fs) == multiset([f]);
    assert |multiset(fs)| == |fs| && |multiset([f])| == 1;
    assert fs[0] in multiset([f]);
    assert CanonicalMember(ms[0]) == fs[0];
    assert CanonicalValue(ms[0].value).Str?;
  }

  /** Equal canonical forms come from trees of one kind, unless one is a mimic. */
  lemma SameKind(a: Tree, b: Tree)
    requires Comparable(a, b) && CanonicalValue(a) == CanonicalValue(b)
    ensures a.Record? ==> b.Record?
    ensures a.Big? ==> a == b
    ensures a.Odd? ==> a == b
  {
    hide Sort;
    TagsDiffer();
    if a.Record? && !b.Record? {
      TagAgainstRecord(b, a);
    } else if a.Big? || a.Odd? {
      if b.Record? { TagAgainstRecord(a, b); }
      if a.Big? { IntegerInjective(a.big, b.big); }
    }
  }

  lemma TagsDiffer()
    ensures BIGINT_TAG != NUMBER_TAG
    ensures forall x: Oddity, y: Oddity :: OddityText(x) == OddityText(y) ==> x == y
  {
    assert BIGINT_TAG[1] != NUMBER_TAG[1];
    assert OddityText(NotANumber)[0] == 78 && OddityText(Infinite)[0] == 73;
    assert OddityText(NegativeInfinite)[1] == 73 && OddityText(NegativeZero)[1] == 48;
  }

  lemma TagAgainstRecord(a: Tree, b: Tree)
    requires b.Record? && !a.Record? && CanonicalValue(a) == CanonicalValue(b)
    ensures (a.Big? || a.Odd?) && Mimic(b)
  {
    hide Sort;
    SingleMember(b.members, CanonicalValue(a).fields[0]);
  }

  lemma RecordMatch(a: Tree, b: Tree, m: Member)
    requires a.Record? && b.Record? && CanonicalValue(a) == CanonicalValue(b) && m in a.members
    ensures exists n :: n in b.members && CanonicalMember(n) == CanonicalMember(m)
  {
    hide Sort, CanonicalMember;
    SortedMember(a.members, CanonicalMember(m));
    SortedMember(b.members, CanonicalMember(m));
  }

  lemma {:induction false} SameFormSameValue(a: Tree, b: Tree)
    requires Comparable(a, b) && CanonicalValue(a) == CanonicalValue(b)
    ensures ValueOf(a) == ValueOf(b)
    decreases a
  {
    hide Sort, Mimic;
    SameKind(a, b);
    if a.Listed? {
      forall i | 0 <= i < |a.elements| ensures ValueOf(a.elements[i]) == ValueOf(b.elements[i]) {
        assert CanonicalElements(a.elements)[i] == CanonicalElements(b.elements)[i];
        assert a.elements[i] in a.elements && b.elements[i] in b.elements;
        SameFormSameValue(a.elements[i], b.elements[i]);
      }
      assert ValuesOf(a.elements) == ValuesOf(b.elements);
    } else if a.Record? {
      forall m | m in a.members ensures Paired(m, b.members) {
        RecordMatch(a, b, m);
        var n :| n in b.members && CanonicalMember(n) == CanonicalMember(m);
        SameFormSameValue(m.value, n.value);
      }
      SameNames(a, b);
      EntriesEqual(a.members, b.members);
    }
  }

  /** Some member has the name and the value of m. */
  ghost predicate Paired(m: Member, ms: seq<Member>)
  {
    exists n :: n in ms && n.name == m.name && ValueOf(n.value) == ValueOf(m.value)
  }

  lemma SameNames(a: Tree, b: Tree)
    requires a.Record? && b.Record? && CanonicalValue(a) == CanonicalValue(b)
    ensures forall n :: n in b.members ==> exists m :: m in a.members && m.name == n.name
  {
    forall n | n in b.members ensures exists m :: m in a.members && m.name == n.name {
      RecordMatch(b, a, n);
    }
  }

  /** A record's value has exactly its members' names and values. */
  lemma {:induction false} EntriesHold(ms: seq<Member>)
    requires DistinctNames(ms)
    ensures forall m :: m in ms ==> m.name in EntriesOf(ms) && EntriesOf(ms)[m.name] == ValueOf(m.value)
    ensures forall name :: name in EntriesOf(ms) ==> exists m :: m in ms && m.name == name
  {
    hide ValueOf;
    if ms != [] {
      EntriesHold(ms[1..]);
      assert ms == [ms[0]] + ms[1..];
      forall m | m in ms ensures m.name in EntriesOf(ms) && EntriesOf(ms)[m.name] == ValueOf(m.value) {
        if m.name == ms[0].name { SameNameSameMember(ms, m, ms[0]); } else { assert m in ms[1..]; }
      }
      forall name | name in EntriesOf(ms) ensures exists m :: m in ms && m.name == name {
        if name == ms[0].name { assert ms[0] in ms; }
      }
    }
  }

  lemma EntryAgrees(xs: seq<Member>, ys: seq<Member>, name: Text)
    requires DistinctNames(xs) && DistinctNames(ys) && name in EntriesOf(xs)
    requires forall m :: m in xs ==> Paired(m, ys)
    ensures name in EntriesOf(ys) && EntriesOf(xs)[name] == EntriesOf(ys)[name]
  {
    hide ValueOf, EntriesOf, Paired, DistinctNames;
    EntriesHold(xs);
    EntriesHold(ys);
    var m :| m in xs && m.name == name;
    PairedWith(m, ys);
  }

  lemma PairedWith(m: Member, ys: seq<Member>)
    requires Paired(m, ys)
    ensures exists n :: n in ys && n.name == m.name && ValueOf(n.value) == ValueOf(m.value)
  {
    hide ValueOf;
  }

  lemma EntriesEqual(xs: seq<Member>, ys: seq<Member>)
    requires DistinctNames(xs) && DistinctNames(ys)
    requires forall m :: m in xs ==> Paired(m, ys)
    requires forall n :: n in ys ==> exists m :: m in xs && m.name == n.name
    ensures EntriesOf(xs) == EntriesOf(ys)
  {
    hide *;
    var x, y := EntriesOf(xs), EntriesOf(ys);
    forall name | name in x ensures name in y && x[name] == y[name] { EntryAgrees(xs, ys, name); }
    forall name | name in y ensures name in x {
      EntriesHold(ys);
      var n :| n in ys && n.name == name;
      EntriesHold(xs);
    }
    assert x == y;
  }

  // ---------------------------------------------------------------------------------------------
  // Equal values, equal forms
  // ---------------------------------------------------------------------------------------------

  lemma {:induction false} SameValueSameForm(a: Tree, b: Tree)
    requires WellFormed(a) && WellFormed(b) && ValueOf(a) == ValueOf(b)
    ensures CanonicalValue(a) == CanonicalValue(b)
    decreases a
  {
    hide Sort;
    if a.Listed? {
      forall i | 0 <= i < |a.elements| ensures CanonicalValue(a.elements[i]) == CanonicalValue(b.elements[i]) {
        assert ValuesOf(a.elements)[i] == ValuesOf(b.elements)[i];
        assert a.elements[i] in a.elements && b.elements[i] in b.elements;
        SameValueSameForm(a.elements[i], b.elements[i]);
      }
      assert CanonicalElements(a.elements) == CanonicalElements(b.elements);
    } else if a.Record? {
      forall m | m in a.members ensures Matched(m, b.members) {
        MemberOfEqual(a.members, b.members, m);
        var n :| n in b.members && n.name == m.name && ValueOf(n.value) == ValueOf(m.value);
        SameValueSameForm(m.value, n.value);
      }
      forall n | n in b.members ensures Matched(n, a.members) {
        MemberOfEqual(b.members, a.members, n);
        var m :| m in a.members && m.name == n.name && ValueOf(m.value) == ValueOf(n.value);
        SameValueSameForm(m.value, n.value);
      }
      SortedEqual(a.members, b.members);
    }
  }

  ghost predicate Matched(m: Member, ms: seq<Member>) {
    exists n :: n in ms && CanonicalMember(n) == CanonicalMember(m)
  }

  lemma MemberOfEqual(xs: seq<Member>, ys: seq<Member>, m: Member)
    requires DistinctNames(xs) && DistinctNames(ys) && EntriesOf(xs) == EntriesOf(ys) && m in xs
    ensures exists n :: n in ys && n.name == m.name && ValueOf(n.value) == ValueOf(m.value)
  {
    hide ValueOf, EntriesOf, DistinctNames;
    EntriesHold(xs);
    EntriesHold(ys);
  }

  lemma CanonicalMembersSorted(ms: seq<Member>)
    requires DistinctNames(ms)
    ensures StrictlySorted(Sort(CanonicalMembers(ms), FieldKey), FieldKey)
  {
    hide Sort, CanonicalValue;
    var fs := CanonicalMembers(ms);
    forall i, j | 0 <= i < j < |fs| ensures FieldKey(fs[i]) != FieldKey(fs[j]) {
      if Image(ms[i].name) == Image(ms[j].name) { ImageInjective(ms[i].name, ms[j].name); }
    }
    SortSorted(fs, FieldKey);
  }

  lemma SortedEqual(xs: seq<Member>, ys: seq<Member>)
    requires DistinctNames(xs) && DistinctNames(ys)
    requires forall m :: m in xs ==> Matched(m, ys)
    requires forall n :: n in ys ==> Matched(n, xs)
    ensures Sort(CanonicalMembers(xs), FieldKey) == Sort(CanonicalMembers(ys), FieldKey)
  {
    hide *;
    CanonicalMembersSorted(xs);
    CanonicalMembersSorted(ys);
    var s, t := Sort(CanonicalMembers(xs), FieldKey), Sort(CanonicalMembers(ys), FieldKey);
    forall f | f in s ensures f in t { SortedCovers(xs, ys, f); }
    forall f | f in t ensures f in s { SortedCovers(ys, xs, f); }
    SortedUnique(s, t, FieldKey);
  }

  lemma SortedCovers(xs: seq<Member>, ys: seq<Member>, f: Field)
    requires forall m :: m in xs ==> Matched(m, ys)
    requires f in Sort(CanonicalMembers(xs), FieldKey)
    ensures f in Sort(CanonicalMembers(ys), FieldKey)
  {
    hide Sort, CanonicalMember;
    SortedMember(xs, f);
    SortedMember(ys, f);
    var m :| m in xs && CanonicalMember(m) == f;
    assert Matched(m, ys);
  }

  // ---------------------------------------------------------------------------------------------
  // The recovery's text
  // ---------------------------------------------------------------------------------------------

  lemma SameTextSameForm(a: Tree, b: Tree)
    ensures RecoveryText(a) == RecoveryText(b) <==> CanonicalValue(a) == CanonicalValue(b)
  {
    hide CanonicalValue, Print;
    TextDeterminesTree(CanonicalValue(a), CanonicalValue(b));
  }

  /** Two readings have the same text exactly when they are the same value once mimics are read as numbers. */
  lemma RecoveryTextIff(a: Tree, b: Tree)
    requires WellFormed(a) && WellFormed(b)
    ensures RecoveryText(a) == RecoveryText(b) <==> ValueOf(Unmimic(a)) == ValueOf(Unmimic(b))
  {
    hide CanonicalValue, RecoveryText, WellFormed, NoMimics, Plain, ValueOf, Unmimic;
    var x, y := Unmimic(a), Unmimic(b);
    UnmimicCanonical(a);
    UnmimicCanonical(b);
    UnmimicWellFormed(a);
    UnmimicWellFormed(b);
    UnmimicLeavesNone(a);
    UnmimicLeavesNone(b);
    SameTextSameForm(a, b);
    if CanonicalValue(x) == CanonicalValue(y) { SameFormSameValue(x, y); }
    if ValueOf(x) == ValueOf(y) { SameValueSameForm(x, y); }
  }

  /** Without mimics, the stable reread compares the two readings as values. */
  lemma StableRereadIff(latest: Tree, baseline: Tree)
    requires WellFormed(latest) && WellFormed(baseline) && NoMimics(latest) && NoMimics(baseline)
    ensures RecoveryText(latest) == RecoveryText(baseline) <==> ValueOf(latest) == ValueOf(baseline)
  {
    hide *;
    RecoveryTextIff(latest, baseline);
    UnmimicIsIdentityIff(latest);
    UnmimicIsIdentityIff(baseline);
  }

  lemma {:induction false} UnmimicSameValue(t: Tree)
    requires WellFormed(t) && ValueOf(Unmimic(t)) == ValueOf(t)
    ensures NoMimics(t)
    decreases t
  {
    if Mimic(t) {
      NamedPrintsAlike(t);
      assert false;
    } else if t.Listed? {
      forall x | x in t.elements ensures NoMimics(x) {
        var i :| 0 <= i < |t.elements| && x == t.elements[i];
        assert ValuesOf(UnmimicElements(t.elements))[i] == ValuesOf(t.elements)[i];
        UnmimicSameValue(x);
      }
    } else if t.Record? {
      forall m | m in t.members ensures NoMimics(m.value) {
        SameEntrySameMember(t.members, m);
        UnmimicSameValue(m.value);
      }
    }
  }

  lemma SameEntrySameMember(ms: seq<Member>, m: Member)
    requires DistinctNames(ms) && EntriesOf(UnmimicMembers(ms)) == EntriesOf(ms) && m in ms
    ensures ValueOf(Unmimic(m.value)) == ValueOf(m.value)
  {
    hide ValueOf, Unmimic, EntriesOf;
    var i :| 0 <= i < |ms| && ms[i] == m;
    var us := UnmimicMembers(ms);
    assert us[i] == UnmimicMember(m) && us[i] in us;
    forall j, k | 0 <= j < k < |us| ensures us[j].name != us[k].name {
      assert us[j] == UnmimicMember(ms[j]) && us[k] == UnmimicMember(ms[k]);
    }
    EntriesHold(ms);
    EntriesHold(us);
  }

  /** A text tells its value among the readings without mimics exactly when its own tree has none. */
  lemma TextTellsValueIff(t: Tree)
    requires WellFormed(t)
    ensures NoMimics(t) <==>
            forall u :: WellFormed(u) && NoMimics(u) && RecoveryText(u) == RecoveryText(t) ==> ValueOf(u) == ValueOf(t)
  {
    hide *;
    if NoMimics(t) {
      forall u | WellFormed(u) && NoMimics(u) && RecoveryText(u) == RecoveryText(t) ensures ValueOf(u) == ValueOf(t) {
        StableRereadIff(u, t);
      }
    } else {
      var u := Unmimic(t);
      UnmimicWellFormed(t);
      UnmimicLeavesNone(t);
      UnmimicCanonical(t);
      SameTextSameForm(u, t);
      if ValueOf(u) == ValueOf(t) {
        UnmimicSameValue(t);
        assert false;
      }
    }
  }

  /** The order of keys does not show in the text. */
  lemma KeyOrderDoesNotShow(ms: seq<Member>, ns: seq<Member>)
    requires WellFormed(Record(ms)) && WellFormed(Record(ns)) && multiset(ms) == multiset(ns)
    ensures RecoveryText(Record(ms)) == RecoveryText(Record(ns))
  {
    hide CanonicalMember, Sort;
    forall m | m in ms ensures Matched(m, ns) { assert m in multiset(ms) && m in ns; }
    forall n | n in ns ensures Matched(n, ms) { assert n in multiset(ns) && n in ms; }
    SortedEqual(ms, ns);
  }
}
