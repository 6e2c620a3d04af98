/**
 The text by which the preparation of a run compares a reconciliation summary with its persisted
 record: printed while it is sorted, and without tags.
 */
module SnapshotText {
  import opened JsonNumber
  import opened JsonText
  import opened KeyOrder
  import opened CanonicalJson

  const NAUGHT_NUMBER: Finite := Decimal(0, 0)

  /** What snapshotJsonValue lets pass: everything JSON has, and the negative zero. */
  predicate IsSnapshot(t: Tree) {
    match t
    case Big(_) => false
    case Odd(which) => which.NegativeZero?
    case Listed(elements) => forall x :: x in elements ==> IsSnapshot(x)
    case Record(ms) => forall m :: m in ms ==> IsSnapshot(m.value)
    case _ => true
  }

  /** canonicalizeJsonSnapshot: it prints while it sorts, and loses the sign of a zero. */
  function CanonicalText(t: Tree): Text
    requires IsSnapshot(t)
    decreases t, 1, 0
  {
    match t
    case Nothing => NULL_TEXT
    case Truth(b) => if b then TRUE_TEXT else FALSE_TEXT
    case Numeral(n) => NumberText(n)
    case Odd(_) => NumberText(NAUGHT_NUMBER)
    case Words(s) => Quote(s)
    case Listed(elements) => [LEFT_BRACKET] + JoinElements(t, elements) + [RIGHT_BRACKET]
    case Record(ms) =>
      [LEFT_BRACE] + JoinMembers(t, SortedMembers(ms)) + [RIGHT_BRACE]
  }

  function SortedMembers(ms: seq<Member>): (r: seq<Member>)
    ensures forall m :: m in r ==> m in ms
  {
    var r := Sort(ms, MemberKey);
    assert forall m :: m in r ==> m in multiset(r);
    r
  }

  function JoinElements(whole: Tree, elements: seq<Tree>): Text
    requires forall x :: x in elements ==> x < whole && IsSnapshot(x)
    decreases whole, 0, |elements|
  {
    if elements == [] then []
    else
      assert elements[0] in elements && forall x :: x in elements[1..] ==> x in elements;
      if |elements| == 1 then CanonicalText(elements[0])
      else CanonicalText(elements[0]) + [COMMA] + JoinElements(whole, elements[1..])
  }

  function JoinMembers(whole: Tree, ms: seq<Member>): Text
    requires forall m :: m in ms ==> m.value < whole && IsSnapshot(m.value)
    decreases whole, 0, |ms|
  {
    if ms == [] then []
    else
      assert ms[0] in ms && forall m :: m in ms[1..] ==> m in ms;
      var first := Quote(ms[0].name) + [COLON] + CanonicalText(ms[0].value);
      if |ms| == 1 then first else first + [COMMA] + JoinMembers(whole, ms[1..])
  }

  // ---------------------------------------------------------------------------------------------
  // Without the signs of zeros
  // ---------------------------------------------------------------------------------------------

  /** The tree with every zero positive. */
  function Signless(t: Tree): Tree {
    match t
    case Odd(which) => if which.NegativeZero? then Numeral(NAUGHT_NUMBER) else t
    case Listed(elements) => Listed(SignlessElements(elements))
    case Record(ms) => Record(SignlessMembers(ms))
    case _ => t
  }

  function SignlessElements(elements: seq<Tree>): (r: seq<Tree>)
    ensures |r| == |elements| && forall i :: 0 <= i < |r| ==> r[i] == Signless(elements[i])
  {
    seq(|elements|, i requires 0 <= i < |elements| => Signless(elements[i]))
  }

  function SignlessMembers(ms: seq<Member>): (r: seq<Member>)
    ensures |r| == |ms| && forall i :: 0 <= i < |r| ==> r[i] == SignlessMember(ms[i])
  {
    seq(|ms|, i requires 0 <= i < |ms| => SignlessMember(ms[i]))
  }

  function SignlessMember(m: Member): Member { Member(m.name, Signless(m.value)) }

  lemma {:induction false} SignlessIsPlain(t: Tree)
    requires IsSnapshot(t)
    ensures Plain(Signless(t))
    decreases t
  {
    if t.Listed? {
      forall x | x in SignlessElements(t.elements) ensures Plain(x) {
        var i :| 0 <= i < |t.elements| && SignlessElements(t.elements)[i] == x;
        SignlessIsPlain(t.elements[i]);
      }
    } else if t.Record? {
      forall m | m in SignlessMembers(t.members) ensures Plain(m.value) {
        var i :| 0 <= i < |t.members| && SignlessMembers(t.members)[i] == m;
        SignlessIsPlain(t.members[i].value);
      }
    }
  }

  lemma {:induction false} SignlessIsWellFormed(t: Tree)
    requires WellFormed(t)
    ensures WellFormed(Signless(t))
    decreases t
  {
    if t.Listed? {
      forall x | x in SignlessElements(t.elements) ensures WellFormed(x) {
        var i :| 0 <= i < |t.elements| && SignlessElements(t.elements)[i] == x;
        SignlessIsWellFormed(t.elements[i]);
      }
    } else if t.Record? {
      forall m | m in SignlessMembers(t.members) ensures WellFormed(m.value) {
        var i :| 0 <= i < |t.members| && SignlessMembers(t.members)[i] == m;
        SignlessIsWellFormed(t.members[i].value);
      }
    }
  }

  lemma SortedMembersText(ms: seq<Member>)
    ensures CanonicalMembers(SignlessMembers(SortedMembers(ms))) == Sort(CanonicalMembers(SignlessMembers(ms)), FieldKey)
  {
    var f := (m: Member) => CanonicalMember(SignlessMember(m));
    hide Sort, CanonicalValue, Signless;
    SortMaps(ms, f, MemberKey, FieldKey);
    assert Mapped(ms, f) == CanonicalMembers(SignlessMembers(ms));
    assert Mapped(SortedMembers(ms), f) == CanonicalMembers(SignlessMembers(SortedMembers(ms)));
  }

  /** Printing while sorting is printing the canonical form. */
  lemma {:induction false} CanonicalTextIsRecoveryText(t: Tree)
    requires IsSnapshot(t)
    ensures CanonicalText(t) == RecoveryText(Signless(t))
    decreases t, 1, 0
  {
    hide Sort, NumberText, Quote;
    if t.Listed? {
      ElementsText(t, t.elements);
    } else if t.Record? {
      MembersText(t, SortedMembers(t.members));
      SortedMembersText(t.members);
    }
  }

  lemma {:induction false} ElementsText(whole: Tree, elements: seq<Tree>)
    requires forall x :: x in elements ==> x < whole && IsSnapshot(x)
    ensures JoinElements(whole, elements) == PrintItems(CanonicalElements(SignlessElements(elements)))
    decreases whole, 0, |elements|
  {
    hide CanonicalText, Print, CanonicalValue, Signless;
    if elements != [] {
      assert elements[0] in elements && forall x :: x in elements[1..] ==> x in elements;
      CanonicalTextIsRecoveryText(elements[0]);
      if |elements| > 1 {
        ElementsText(whole, elements[1..]);
        assert CanonicalElements(SignlessElements(elements))[1..] == CanonicalElements(SignlessElements(elements[1..]));
      }
    }
  }

  lemma {:induction false} MembersText(whole: Tree, ms: seq<Member>)
    requires forall m :: m in ms ==> m.value < whole && IsSnapshot(m.value)
    ensures JoinMembers(whole, ms) == PrintFields(CanonicalMembers(SignlessMembers(ms)))
    decreases whole, 0, |ms|
  {
    hide CanonicalText, Print, CanonicalValue, Quote, Signless;
    if ms != [] {
      assert ms[0] in ms && forall m :: m in ms[1..] ==> m in ms;
      CanonicalTextIsRecoveryText(ms[0].value);
      if |ms| > 1 {
        MembersText(whole, ms[1..]);
        assert CanonicalMembers(SignlessMembers(ms))[1..] == CanonicalMembers(SignlessMembers(ms[1..]));
      }
    }
  }

  /** The summary of a run matches its persisted record exactly when the two are the same value, up to the signs of zeros. */
  lemma SummaryTextIff(a: Tree, b: Tree)
    requires IsSnapshot(a) && IsSnapshot(b) && WellFormed(a) && WellFormed(b)
    ensures CanonicalText(a) == CanonicalText(b) <==> ValueOf(Signless(a)) == ValueOf(Signless(b))
  {
    hide CanonicalText, Plain, IsSnapshot, Signless, WellFormed, ValueOf, CanonicalValue, NoMimics, RecoveryText;
    CanonicalTextIsRecoveryText(a);
    CanonicalTextIsRecoveryText(b);
    SignlessIsPlain(a);
    SignlessIsPlain(b);
    SignlessIsWellFormed(a);
    SignlessIsWellFormed(b);
    SameTextSameForm(Signless(a), Signless(b));
    if CanonicalValue(Signless(a)) == CanonicalValue(Signless(b)) { SameFormSameValue(Signless(a), Signless(b)); }
    if ValueOf(Signless(a)) == ValueOf(Signless(b)) { SameValueSameForm(Signless(a), Signless(b)); }
  }

  /** A negative zero and a zero print alike, though they are two values. */
  lemma NegativeZeroPrintsAsZero()
    ensures CanonicalText(Odd(NegativeZero)) == CanonicalText(Numeral(NAUGHT_NUMBER)) && ValueOf(Odd(NegativeZero)) != ValueOf(Numeral(NAUGHT_NUMBER))
  {
  }

  /** Without negative zeros nothing is lost. */
  lemma {:induction false} PlainIsSignless(t: Tree)
    requires Plain(t)
    ensures Signless(t) == t && IsSnapshot(t)
    decreases t
  {
    if t.Listed? {
      forall x | x in t.elements ensures Signless(x) == x && IsSnapshot(x) { PlainIsSignless(x); }
      assert SignlessElements(t.elements) == t.elements;
    } else if t.Record? {
      forall m | m in t.members ensures SignlessMember(m) == m && IsSnapshot(m.value) { PlainIsSignless(m.value); }
      assert SignlessMembers(t.members) == t.members;
    }
  }
}
