/**
 The chronological order of evidence and of audit events: first the instant, then the identifier,
 compared character by character.
 */
module KeyOrder {

  datatype Key = Key(at: int, id: string)

  predicate LexLess(a: string, b: string) {
    |b| > 0 && (|a| == 0 || a[0] < b[0] || (a[0] == b[0] && LexLess(a[1..], b[1..])))
  }

  predicate KeyLess(a: Key, b: Key) {
    a.at < b.at || (a.at == b.at && LexLess(a.id, b.id))
  }

  lemma {:induction false} LexTotal(a: string, b: string)
    ensures LexLess(a, b) || a == b || LexLess(b, a)
    ensures !(LexLess(a, b) && LexLess(b, a))
    ensures !LexLess(a, a)
  {
    if |a| > 0 {
      LexTotal(a[1..], a[1..]);
    }
    if |a| > 0 && |b| > 0 && a[0] == b[0] {
      LexTotal(a[1..], b[1..]);
      assert a == [a[0]] + a[1..] && b == [b[0]] + b[1..];
    }
  }

  lemma {:induction false} LexTransitive(a: string, b: string, c: string)
    requires LexLess(a, b) && LexLess(b, c)
    ensures LexLess(a, c)
  {
    if |a| > 0 && a[0] == b[0] && b[0] == c[0] {
      LexTransitive(a[1..], b[1..], c[1..]);
    }
  }

  /** One text is less than another when it is smaller at the first character that differs, or ends before it. */
  ghost predicate SmallerAt(a: string, b: string, k: int) {
    0 <= k <= |a| && k < |b| && a[..k] == b[..k] && (k == |a| || a[k] < b[k])
  }

  lemma CommonHead(a: string, b: string, k: int)
    requires SmallerAt(a, b, k)
    ensures k > 0 ==> |a| > 0 && |b| > 0 && a[0] == b[0]
  {
    assert k > 0 ==> a[..k][0] == a[0] && b[..k][0] == b[0];
  }

  lemma {:induction false} LexLessIff(a: string, b: string)
    ensures LexLess(a, b) <==> exists k :: SmallerAt(a, b, k)
  {
    if |a| == 0 || |b| == 0 || a[0] != b[0] {
      if LexLess(a, b) { assert SmallerAt(a, b, 0); }
      forall k | SmallerAt(a, b, k) ensures LexLess(a, b) {
        CommonHead(a, b, k);
      }
    } else {
      LexLessIff(a[1..], b[1..]);
      forall k | SmallerAt(a[1..], b[1..], k) ensures SmallerAt(a, b, k + 1) {
        assert a[..k + 1] == [a[0]] + a[1..][..k] && b[..k + 1] == [b[0]] + b[1..][..k];
      }
      forall k | SmallerAt(a, b, k) ensures SmallerAt(a[1..], b[1..], k - 1) {
        assert k > 0;
        assert a[1..][..k - 1] == a[..k][1..] && b[1..][..k - 1] == b[..k][1..];
      }
    }
  }

  /** A common beginning does not count. */
  lemma {:induction false} LexCommonPrefix(p: string, a: string, b: string)
    ensures LexLess(p + a, p + b) <==> LexLess(a, b)
  {
    if p == [] {
      assert p + a == a && p + b == b;
    } else {
      LexCommonPrefix(p[1..], a, b);
      assert (p + a)[1..] == p[1..] + a && (p + b)[1..] == p[1..] + b;
    }
  }

  lemma KeyTotal(a: Key, b: Key)
    ensures KeyLess(a, b) || a == b || KeyLess(b, a)
    ensures !(KeyLess(a, b) && KeyLess(b, a))
    ensures !KeyLess(a, a)
  {
    LexTotal(a.id, b.id);
  }

  lemma KeyTransitive(a: Key, b: Key, c: Key)
    requires KeyLess(a, b) && KeyLess(b, c)
    ensures KeyLess(a, c)
  {
    if a.at == b.at == c.at { LexTransitive(a.id, b.id, c.id); }
  }

  // ---------------------------------------------------------------------------------------------
  // Sorted sequences
  // ---------------------------------------------------------------------------------------------

  predicate StrictlySorted<T>(s: seq<T>, key: T -> Key) {
    forall i, j :: 0 <= i < j < |s| ==> KeyLess(key(s[i]), key(s[j]))
  }

  /** What a scan that compares each element with its predecessor checks. */
  predicate ScannedSorted<T>(s: seq<T>, key: T -> Key) {
    forall i :: 0 < i < |s| ==> KeyLess(key(s[i - 1]), key(s[i]))
  }

  lemma ScanSuffices<T>(s: seq<T>, key: T -> Key)
    ensures ScannedSorted(s, key) <==> StrictlySorted(s, key)
  {
    if ScannedSorted(s, key) {
      forall i, j | 0 <= i < j < |s| ensures KeyLess(key(s[i]), key(s[j])) {
        ScanBetween(s, key, i, j);
      }
    }
  }

  lemma {:induction false} ScanBetween<T>(s: seq<T>, key: T -> Key, i: nat, j: nat)
    requires ScannedSorted(s, key) && i < j < |s|
    ensures KeyLess(key(s[i]), key(s[j]))
  {
    if i + 1 < j {
      ScanBetween(s, key, i, j - 1);
      KeyTransitive(key(s[i]), key(s[j - 1]), key(s[j]));
    }
  }

  /** Two strictly sorted sequences of the same elements are the same sequence. */
  lemma {:induction false} SortedUnique<T>(s: seq<T>, t: seq<T>, key: T -> Key)
    requires StrictlySorted(s, key) && StrictlySorted(t, key)
    requires forall x :: x in s <==> x in t
    ensures s == t
  {
    if s == [] {
      assert forall i :: 0 <= i < |t| ==> t[i] in s;
    } else {
      assert s[0] in t;
      assert t[0] in s;
      var i :| 0 <= i < |t| && t[i] == s[0];
      var j :| 0 <= j < |s| && s[j] == t[0];
      KeyTotal(key(s[0]), key(t[0]));
      assert i == 0;
      forall x ensures x in s[1..] <==> x in t[1..] {
        SortedTail(s, key, x);
        SortedTail(t, key, x);
      }
      SortedUnique(s[1..], t[1..], key);
      assert s == [s[0]] + s[1..] && t == [t[0]] + t[1..];
    }
  }

  lemma SortedTail<T>(s: seq<T>, key: T -> Key, x: T)
    requires StrictlySorted(s, key) && s != []
    ensures x in s[1..] <==> x in s && x != s[0]
  {
    if x in s[1..] {
      var i :| 0 <= i < |s[1..]| && s[1..][i] == x;
      assert s[i + 1] == x;
      KeyTotal(key(s[0]), key(x));
    }
  }

  // ---------------------------------------------------------------------------------------------
  // Sorting
  // ---------------------------------------------------------------------------------------------

  /** Put x before the first element with a larger key. */
  function Insert<T>(x: T, s: seq<T>, key: T -> Key): (r: seq<T>)
    ensures multiset(r) == multiset(s) + multiset{x}
  {
    if s == [] || KeyLess(key(x), key(s[0])) then [x] + s
    else
      assert s == [s[0]] + s[1..];
      [s[0]] + Insert(x, s[1..], key)
  }

  /** The array sort of the source, with its comparison of instants and identifiers. */
  function Sort<T>(s: seq<T>, key: T -> Key): (r: seq<T>)
    ensures multiset(r) == multiset(s)
  {
    if s == [] then []
    else
      assert s == s[..|s| - 1] + [s[|s| - 1]];
      Insert(s[|s| - 1], Sort(s[..|s| - 1], key), key)
  }

  predicate DistinctKeys<T>(s: seq<T>, key: T -> Key) {
    forall i, j :: 0 <= i < j < |s| ==> key(s[i]) != key(s[j])
  }

  lemma {:induction false} InsertSorted<T>(x: T, s: seq<T>, key: T -> Key)
    requires StrictlySorted(s, key)
    requires forall y :: y in s ==> key(y) != key(x)
    ensures StrictlySorted(Insert(x, s, key), key)
  {
    if s == [] {
    } else if KeyLess(key(x), key(s[0])) {
      forall j | 0 < j < |s| ensures KeyLess(key(x), key(s[j])) {
        KeyTransitive(key(x), key(s[0]), key(s[j]));
      }
    } else {
      assert s[0] in s;
      KeyTotal(key(x), key(s[0]));
      InsertSorted(x, s[1..], key);
      var rest := Insert(x, s[1..], key);
      forall j | 0 <= j < |rest| ensures KeyLess(key(s[0]), key(rest[j])) {
        assert rest[j] in multiset(s[1..]) + multiset{x};
      }
    }
  }

  lemma {:induction false} SortSorted<T>(s: seq<T>, key: T -> Key)
    requires DistinctKeys(s, key)
    ensures StrictlySorted(Sort(s, key), key)
  {
    if s != [] {
      var init, x := s[..|s| - 1], s[|s| - 1];
      SortSorted(init, key);
      forall y | y in Sort(init, key) ensures key(y) != key(x) {
        assert y in multiset(init);
      }
      InsertSorted(x, Sort(init, key), key);
    }
  }

  /** The sort of elements with distinct keys does not depend on their order. */
  lemma SortOrderFree<T>(s: seq<T>, t: seq<T>, key: T -> Key)
    requires DistinctKeys(s, key) && multiset(s) == multiset(t)
    ensures DistinctKeys(t, key)
    ensures Sort(s, key) == Sort(t, key)
  {
    hide Sort, DistinctKeys, StrictlySorted;
    DistinctOfPermutation(s, t, key);
    SortSorted(s, key);
    SortSorted(t, key);
    SameMembers(Sort(s, key), Sort(t, key));
    SortedUnique(Sort(s, key), Sort(t, key), key);
  }

  lemma SameMembers<T>(s: seq<T>, t: seq<T>)
    requires multiset(s) == multiset(t)
    ensures forall x :: x in s <==> x in t
  {
    forall x ensures x in s <==> x in t {
      assert x in multiset(s) <==> x in multiset(t);
    }
  }

  lemma DistinctOfPermutation<T>(s: seq<T>, t: seq<T>, key: T -> Key)
    requires DistinctKeys(s, key) && multiset(s) == multiset(t)
    ensures DistinctKeys(t, key)
  {
    forall i, j | 0 <= i < j < |t| ensures key(t[i]) != key(t[j]) { NoRepetition(s, t, key, i, j); }
  }

  lemma NoRepetition<T>(s: seq<T>, t: seq<T>, key: T -> Key, i: nat, j: nat)
    requires DistinctKeys(s, key) && multiset(s) == multiset(t) && i < j < |t|
    ensures key(t[i]) != key(t[j])
  {
    hide DistinctKeys;
    if key(t[i]) == key(t[j]) {
      EqualKeysEqual(s, t[i], t[j], key);
      TwiceCounted(t, i, j);
      DistinctOnce(s, t[i], key);
    }
  }

  lemma TwiceCounted<T>(t: seq<T>, i: nat, j: nat)
    requires i < j < |t| && t[i] == t[j]
    ensures multiset(t)[t[i]] >= 2
  {
    var front, back := t[..j], t[j..];
    assert t == front + back;
    assert front[i] == t[i] && t[i] in multiset(front);
    assert back[0] == t[i] && t[i] in multiset(back);
  }

  lemma EqualKeysEqual<T>(s: seq<T>, x: T, y: T, key: T -> Key)
    requires DistinctKeys(s, key) && x in multiset(s) && y in multiset(s) && key(x) == key(y)
    ensures x == y
  {
    var i :| 0 <= i < |s| && s[i] == x;
    var j :| 0 <= j < |s| && s[j] == y;
  }

  lemma {:induction false} DistinctOnce<T>(s: seq<T>, x: T, key: T -> Key)
    requires DistinctKeys(s, key)
    ensures multiset(s)[x] <= 1
  {
    if s != [] {
      var init, last := s[..|s| - 1], s[|s| - 1];
      assert s == init + [last];
      DistinctOnce(init, x, key);
      assert forall i :: 0 <= i < |init| ==> key(s[i]) != key(last);
    }
  }

  /** Sorting leaves a sorted sequence alone. */
  lemma SortOfSorted<T>(s: seq<T>, key: T -> Key)
    requires StrictlySorted(s, key)
    ensures Sort(s, key) == s
  {
    forall i, j | 0 <= i < j < |s| ensures key(s[i]) != key(s[j]) { KeyTotal(key(s[i]), key(s[i])); }
    SortSorted(s, key);
    SameMembers(Sort(s, key), s);
    SortedUnique(Sort(s, key), s, key);
  }

  // ---------------------------------------------------------------------------------------------
  // Sorting images
  // ---------------------------------------------------------------------------------------------

  function Mapped<A, B>(s: seq<A>, f: A -> B): (r: seq<B>)
    ensures |r| == |s| && forall i :: 0 <= i < |s| ==> r[i] == f(s[i])
  {
    seq(|s|, i requires 0 <= i < |s| => f(s[i]))
  }

  lemma InsertUnfolds<T>(x: T, s: seq<T>, key: T -> Key)
    ensures Insert(x, s, key) ==
            if s == [] || KeyLess(key(x), key(s[0])) then [x] + s else [s[0]] + Insert(x, s[1..], key)
  {
    hide KeyLess;
  }

  lemma SortUnfolds<T>(init: seq<T>, last: T, key: T -> Key)
    ensures Sort(init + [last], key) == Insert(last, Sort(init, key), key)
  {
    hide Insert;
    assert (init + [last])[..|init|] == init;
  }

  lemma MappedCons<A(!new), B>(x: A, s: seq<A>, f: A -> B)
    ensures Mapped([x] + s, f) == [f(x)] + Mapped(s, f)
    ensures s != [] ==> Mapped(s, f) != [] && Mapped(s, f)[0] == f(s[0]) && Mapped(s, f)[1..] == Mapped(s[1..], f)
  {
  }

  lemma {:induction false} InsertMaps<A(!new), B>(x: A, s: seq<A>, f: A -> B, key: A -> Key, image: B -> Key)
    requires forall a :: image(f(a)) == key(a)
    ensures Mapped(Insert(x, s, key), f) == Insert(f(x), Mapped(s, f), image)
  {
    hide Insert, KeyLess, Mapped;
    InsertUnfolds(x, s, key);
    InsertUnfolds(f(x), Mapped(s, f), image);
    MappedCons(x, s, f);
    if s != [] && !KeyLess(key(x), key(s[0])) {
      InsertMaps(x, s[1..], f, key, image);
      MappedCons(s[0], Insert(x, s[1..], key), f);
    }
  }

  /** Sorting and then mapping is mapping and then sorting, as long as the keys stay. */
  lemma {:induction false} SortMaps<A(!new), B>(s: seq<A>, f: A -> B, key: A -> Key, image: B -> Key)
    requires forall a :: image(f(a)) == key(a)
    ensures Mapped(Sort(s, key), f) == Sort(Mapped(s, f), image)
  {
    if s != [] {
      hide Insert, Sort;
      var init, last := s[..|s| - 1], s[|s| - 1];
      assert s == init + [last] && Mapped(s, f) == Mapped(init, f) + [f(last)];
      SortMaps(init, f, key, image);
      InsertMaps(last, Sort(init, key), f, key, image);
      SortUnfolds(init, last, key);
      SortUnfolds(Mapped(init, f), f(last), image);
    }
  }
}
