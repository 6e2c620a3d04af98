/**
 Two verdicts about an order that has ended in failure. The recovery asks whether the exchange is
 known not to have it; the classifier asks whether it must block further submissions.

 The verdicts come from different rules. They agree on exactly the orders described at the end.
 */
module OrderAbsence {
  import opened Basics
  import opened KeyOrder
  import PilotAudit

  /** A persisted instant: its text, its exact value if the text is strict, and what Date.parse makes of it. */
  datatype Stamp = Stamp(text: string, strict: Option<int>, ms: Option<int>)

  datatype OrderStatus =
    | IntentCreated | PersistedOrder | Submitting | Open | PartiallyFilled | CancelRequested | ReconciliationRequired
    | Failed | Rejected | OtherTerminal

  datatype Payload =
    | AbsenceProof(absenceObservationCount: nat, elapsedMs: nat, minimumNotFound: nat, minimumElapsedMs: nat)
    | Rejection(status: int, exchangeCode: Option<string>, exchangeName: Option<string>)
    | OtherRecord(contradicts: bool)

  datatype Order = Order(
    id: string,
    identifier: string,
    status: OrderStatus,
    failureCode: Option<string>,
    failureMessage: Option<string>,
    upbitUuid: Option<string>,
    exchangeResponse: Option<Option<Payload>>,
    dryRun: bool,
    requestedAt: Stamp,
    updatedAt: Stamp)

  /** `payload` is None if its text is not a JSON record. */
  datatype OrderEvent = OrderEvent(id: string, orderId: string, eventType: string, eventSource: string, createdAt: Stamp, payload: Option<Payload>)

  datatype OutcomeKind = Found | NotFound | Ambiguous

  datatype Query = ByUuid(uuid: string) | ByIdentifier(identifier: string)

  /** `attempted` is None if the detail has any other shape. */
  datatype Observation = Observation(
    id: string, orderId: string, outcome: OutcomeKind, observedAt: Stamp, createdAt: string, observedAtEpochMs: int, attempted: Option<seq<Query>>)

  /** The configuration demands two observations at least, over a positive time. */
  datatype Policy = Policy(minimumNotFound: nat, minimumElapsedMs: nat)

  predicate PolicyOk(p: Policy) { p.minimumNotFound >= 2 && p.minimumElapsedMs > 0 }

  const ABSENCE_CONFIRMED := "RECONCILIATION_IDENTIFIER_ABSENCE_CONFIRMED"
  const ABSENCE_CODE := "ORDER_SUBMISSION_ABSENCE_CONFIRMED"
  const ABSENCE_MESSAGE := "Bounded identifier recovery confirmed persistent exchange absence."
  const REJECTION_CODE := "EXCHANGE_ORDER_REJECTED"

  function Filter<T(!new)>(s: seq<T>, keep: T -> bool): (r: seq<T>)
    ensures forall x :: x in r <==> x in s && keep(x)
  {
    if s == [] then []
    else
      assert s == [s[0]] + s[1..];
      if keep(s[0]) then [s[0]] + Filter(s[1..], keep) else Filter(s[1..], keep)
  }

  predicate IsNotFound(o: Observation) { o.outcome == NotFound }

  predicate IsRejection(e: OrderEvent) { e.eventType == "ORDER_REJECTED" }

  predicate IsAbsence(e: OrderEvent) { e.eventType == ABSENCE_CONFIRMED }

  // ---------------------------------------------------------------------------------------------
  // The recovery's verdict
  // ---------------------------------------------------------------------------------------------

  function UpperChar(c: char): char { if 'a' <= c <= 'z' then c - 'a' + 'A' else c }

  function Upper(s: string): string { seq(|s|, i requires 0 <= i < |s| => UpperChar(s[i])) }

  predicate Contains(s: string, part: string) { part <= s || (s != [] && Contains(s[1..], part)) }

  predicate NamesDispatch(eventType: string) {
    var t := Upper(eventType);
    Contains(t, "SUBMITTED") || Contains(t, "ACCEPTED") || Contains(t, "FILL") || Contains(t, "CANCELED") ||
    Contains(t, "TERMINAL") || Contains(t, "EXCHANGE_ORDER_RECOVERED")
  }

  /** An event that is not before the proof and speaks against it. An instant without a value is before nothing. */
  predicate Contradicts(proof: OrderEvent, e: OrderEvent) {
    e.id != proof.id &&
    !(e.createdAt.ms.Some? && proof.createdAt.ms.Some? && e.createdAt.ms.value < proof.createdAt.ms.value) &&
    (e.eventSource == "EXCHANGE" || NamesDispatch(e.eventType) || e.payload.None? || (e.payload.value.OtherRecord? && e.payload.value.contradicts))
  }

  predicate NamesDuplicate(name: Option<string>) { name.Some? && Upper(Trim(name.value)) == "DUPLICATE_IDENTIFIER" }

  predicate IsSpace(c: char) { c in {' ', '\t', '\n', '\r'} }

  function Trim(s: string): string
    decreases |s|
  {
    if s == [] then s
    else if IsSpace(s[0]) then Trim(s[1..])
    else if IsSpace(s[|s| - 1]) then Trim(s[..|s| - 1])
    else s
  }

  predicate IsDefinitiveRejection(p: Payload) {
    p.Rejection? && 400 <= p.status < 500 && p.status != 408 && p.status != 429 &&
    !NamesDuplicate(p.exchangeCode) && !NamesDuplicate(p.exchangeName)
  }

  predicate RejectionProven(order: Order, events: seq<OrderEvent>, now: int) {
    var rejections := Filter(events, IsRejection);
    order.failureCode == Some(REJECTION_CODE) && order.upbitUuid.None? &&
    order.failureMessage.Some? && PilotAudit.NonBlank(order.failureMessage.value) && order.exchangeResponse.Some? && |rejections| == 1 &&
    var e := rejections[0];
    e.createdAt.strict.Some? && e.payload.Some? && order.exchangeResponse.value.Some? &&
    e.orderId == order.id && e.createdAt.text == order.updatedAt.text &&
    order.requestedAt.strict.Some? && order.requestedAt.strict.value <= e.createdAt.strict.value <= now &&
    (e.eventSource == "EXCHANGE" || (order.dryRun && e.eventSource == "LOCAL")) &&
    IsDefinitiveRejection(e.payload.value) && order.exchangeResponse.value.value == e.payload.value &&
    forall x :: x in events ==> !Contradicts(e, x)
  }

  function ExpectedQueries(order: Order): Option<seq<Query>> {
    if !PilotAudit.NonBlank(order.identifier) || (order.upbitUuid.Some? && !PilotAudit.NonBlank(order.upbitUuid.value)) then None
    else Some((if order.upbitUuid.Some? then [ByUuid(order.upbitUuid.value)] else []) + [ByIdentifier(order.identifier)])
  }

  predicate ObservationInPlace(o: Observation, order: Order, proof: OrderEvent, now: int) {
    o.observedAt.strict.Some? && o.orderId == order.id && o.createdAt == o.observedAt.text && o.observedAt.ms == Some(o.observedAtEpochMs) &&
    order.requestedAt.strict.Some? && proof.createdAt.strict.Some? &&
    order.requestedAt.strict.value <= o.observedAt.strict.value <= proof.createdAt.strict.value && o.observedAt.strict.value <= now
  }

  predicate DistinctObservations(observations: seq<Observation>) {
    forall i, j :: 0 <= i < j < |observations| ==> observations[i].id != observations[j].id
  }

  function ObservationKey(o: Observation): Key { Key(o.observedAtEpochMs, o.id) }

  predicate ProofInPlace(e: OrderEvent, order: Order, policy: Policy, now: int) {
    e.createdAt.strict.Some? && e.id == "identifier-recovery-absence-event:" + order.id && e.orderId == order.id &&
    e.eventSource == "RECONCILIATION" && e.createdAt.text == order.updatedAt.text &&
    order.requestedAt.strict.Some? && order.requestedAt.strict.value <= e.createdAt.strict.value <= now &&
    e.payload.Some? && e.payload.value.AbsenceProof? &&
    e.payload.value.minimumNotFound == policy.minimumNotFound && e.payload.value.minimumElapsedMs == policy.minimumElapsedMs
  }

  predicate AbsenceProven(order: Order, events: seq<OrderEvent>, observations: seq<Observation>, policy: Policy, now: int) {
    var absences := Filter(events, IsAbsence);
    order.status == Failed && order.failureCode == Some(ABSENCE_CODE) && order.failureMessage == Some(ABSENCE_MESSAGE) && |absences| == 1 &&
    var e := absences[0];
    var queries := ExpectedQueries(order);
    ProofInPlace(e, order, policy, now) && queries.Some? &&
    DistinctObservations(observations) && (forall o :: o in observations ==> ObservationInPlace(o, order, e, now)) &&
    var missing := Filter(observations, IsNotFound);
    (forall o :: o in missing ==> o.attempted == queries) &&
    var ordered := Sort(missing, ObservationKey);
    assert |multiset(ordered)| == |ordered|;
    ordered != [] &&
    var first, latest := ordered[0], ordered[|ordered| - 1];
    latest.observedAt.text == e.createdAt.text &&
    (forall x :: x in events ==> !Contradicts(e, x)) &&
    |missing| == e.payload.value.absenceObservationCount && latest.observedAtEpochMs - first.observedAtEpochMs == e.payload.value.elapsedMs &&
    |missing| >= policy.minimumNotFound && latest.observedAtEpochMs - first.observedAtEpochMs >= policy.minimumElapsedMs
  }

  /** isDefinitivelyAbsentOrder. */
  predicate DefinitivelyAbsent(order: Order, events: seq<OrderEvent>, observations: seq<Observation>, policy: Policy, now: int) {
    order.requestedAt.strict.Some? && (forall o :: o in observations ==> o.outcome != Found) &&
    if order.status == Rejected then RejectionProven(order, events, now) else AbsenceProven(order, events, observations, policy, now)
  }

  // ---------------------------------------------------------------------------------------------
  // The classifier's verdict
  // ---------------------------------------------------------------------------------------------

  datatype Reason =
    | ActiveSubmissionLifecycle | UnresolvedPotentiallyDispatched | DefinitivePreSendTerminal
    | ExchangeRejectionConfirmed | BoundedAbsenceConfirmed | ResolvedTerminal

  predicate Blocking(r: Reason) { r == ActiveSubmissionLifecycle || r == UnresolvedPotentiallyDispatched }

  predicate IsActive(s: OrderStatus) {
    s in {IntentCreated, PersistedOrder, Submitting, Open, PartiallyFilled, CancelRequested, ReconciliationRequired}
  }

  const DISPATCH_EVENTS := {"ORDER_SUBMITTED", "ORDER_FILLED", "ORDER_CANCELED", "ORDER_REJECTED", "RECONCILIATION_RECOVERY_REQUIRED",
                            "RECONCILIATION_STATUS_UPDATED", "RECONCILIATION_IDENTIFIER_RECOVERY_OBSERVED"}

  const UNCERTAIN_CODES := {"EXCHANGE_SUBMISSION_FAILED", "RECONCILIATION_REQUIRED", "SUBMISSION_RESPONSE_UNCERTAIN"}

  predicate HasEvent(events: seq<OrderEvent>, eventType: string) { exists e :: e in events && e.eventType == eventType }

  predicate HasEventFrom(events: seq<OrderEvent>, eventType: string, source: string) {
    exists e :: e in events && e.eventType == eventType && e.eventSource == source
  }

  function Epochs(observations: seq<Observation>): (r: seq<int>)
    ensures |r| == |observations| && forall i :: 0 <= i < |r| ==> r[i] == observations[i].observedAtEpochMs
  {
    seq(|observations|, i requires 0 <= i < |observations| => observations[i].observedAtEpochMs)
  }

  function EpochKey(at: int): Key { Key(at, "") }

  /** At least two absences, not all at the same instant. */
  predicate BoundedAbsenceObserved(observations: seq<Observation>) {
    var sorted := Sort(Epochs(Filter(observations, IsNotFound)), EpochKey);
    |sorted| >= 2 && sorted[|sorted| - 1] > sorted[0]
  }

  predicate HasDispatchEvidence(order: Order, events: seq<OrderEvent>, observations: seq<Observation>) {
    order.upbitUuid.Some? || order.exchangeResponse.Some? || (exists o :: o in observations && o.outcome == Found) ||
    (exists e :: e in events && e.eventType in DISPATCH_EVENTS) ||
    (order.failureCode.Some? && (order.failureCode.value in UNCERTAIN_CODES || Contains(order.failureCode.value, "UNCERTAIN") ||
                                 Contains(order.failureCode.value, "RECONCILIATION")))
  }

  /** classifySubmissionBlockingOrder. */
  function Classify(order: Order, events: seq<OrderEvent>, observations: seq<Observation>): Reason {
    var found := exists o :: o in observations && o.outcome == Found;
    var submitted := HasEvent(events, "ORDER_SUBMITTED");
    if IsActive(order.status) then ActiveSubmissionLifecycle
    else if order.status != Failed && order.status != Rejected then ResolvedTerminal
    else if order.status == Failed && order.failureCode == Some(ABSENCE_CODE) && HasEventFrom(events, ABSENCE_CONFIRMED, "RECONCILIATION") &&
            BoundedAbsenceObserved(observations) && !found && !submitted && order.upbitUuid.None? then BoundedAbsenceConfirmed
    else if order.status == Rejected && order.failureCode == Some(REJECTION_CODE) && HasEventFrom(events, "ORDER_REJECTED", "EXCHANGE") &&
            !found && !submitted && !HasEvent(events, "RECONCILIATION_RECOVERY_REQUIRED") && order.upbitUuid.None? then ExchangeRejectionConfirmed
    else if !HasDispatchEvidence(order, events, observations) then DefinitivePreSendTerminal
    else UnresolvedPotentiallyDispatched
  }

  // ---------------------------------------------------------------------------------------------
  // Sorting observations
  // ---------------------------------------------------------------------------------------------

  /** No element comes after a later one; equal keys may stand side by side. */
  ghost predicate InKeyOrder<T(!new)>(s: seq<T>, key: T -> Key) {
    forall i, j :: 0 <= i < j < |s| ==> !KeyLess(key(s[j]), key(s[i]))
  }

  lemma NotLessTransitive(a: Key, b: Key, c: Key)
    requires !KeyLess(b, a) && !KeyLess(c, b)
    ensures !KeyLess(c, a)
  {
    KeyTotal(a, b);
    KeyTotal(b, c);
    KeyTotal(a, c);
    if KeyLess(c, a) {
      if KeyLess(a, b) { KeyTransitive(c, a, b); }
      if KeyLess(b, c) { KeyTransitive(b, c, a); }
    }
  }

  lemma {:induction false} InsertInKeyOrder<T(!new)>(x: T, s: seq<T>, key: T -> Key)
    requires InKeyOrder(s, key)
    ensures InKeyOrder(Insert(x, s, key), key)
  {
    if s == [] {
    } else if KeyLess(key(x), key(s[0])) {
      KeyTotal(key(x), key(s[0]));
      forall j | 0 <= j < |s| ensures !KeyLess(key(s[j]), key(x)) {
        if j > 0 { NotLessTransitive(key(x), key(s[0]), key(s[j])); }
      }
    } else {
      InsertInKeyOrder(x, s[1..], key);
      var rest := Insert(x, s[1..], key);
      forall j | 0 <= j < |rest| ensures !KeyLess(key(rest[j]), key(s[0])) {
        assert rest[j] in multiset(s[1..]) + multiset{x};
      }
    }
  }

  lemma {:induction false} SortInKeyOrder<T(!new)>(s: seq<T>, key: T -> Key)
    ensures InKeyOrder(Sort(s, key), key)
  {
    if s != [] {
      SortInKeyOrder(s[..|s| - 1], key);
      InsertInKeyOrder(s[|s| - 1], Sort(s[..|s| - 1], key), key);
    }
  }

  lemma SortMembers<T(!new)>(s: seq<T>, key: T -> Key)
    ensures |Sort(s, key)| == |s| && forall x :: x in Sort(s, key) <==> x in s
  {
    var r := Sort(s, key);
    assert |multiset(r)| == |r| && |multiset(s)| == |s|;
    forall x ensures x in r <==> x in s { assert x in multiset(r) <==> x in multiset(s); }
  }

  /** The last of the sorted instants exceeds the first exactly when two of them differ. */
  lemma SortedEndsIff(epochs: seq<int>)
    ensures var sorted := Sort(epochs, EpochKey);
            |sorted| >= 2 && sorted[|sorted| - 1] > sorted[0] <==> exists x, y :: x in epochs && y in epochs && x < y
  {
    hide Sort;
    var sorted := Sort(epochs, EpochKey);
    SortInKeyOrder(epochs, EpochKey);
    SortMembers(epochs, EpochKey);
    if |sorted| >= 2 && sorted[|sorted| - 1] > sorted[0] {
      assert sorted[0] in epochs && sorted[|sorted| - 1] in epochs;
    }
    if x, y :| x in epochs && y in epochs && x < y {
      var i :| 0 <= i < |sorted| && sorted[i] == x;
      var j :| 0 <= j < |sorted| && sorted[j] == y;
      assert i > 0 ==> !KeyLess(EpochKey(sorted[i]), EpochKey(sorted[0]));
      assert j < |sorted| - 1 ==> !KeyLess(EpochKey(sorted[|sorted| - 1]), EpochKey(sorted[j]));
    }
  }

  /** The classifier's sort asks whether two absences lie at different instants. */
  lemma BoundedAbsenceIff(observations: seq<Observation>)
    ensures BoundedAbsenceObserved(observations) <==>
            exists a, b :: a in observations && b in observations && a.outcome == NotFound && b.outcome == NotFound && a.observedAtEpochMs < b.observedAtEpochMs
  {
    hide Sort, Filter, Epochs;
    var missing := Filter(observations, IsNotFound);
    var epochs := Epochs(missing);
    SortedEndsIff(epochs);
    if BoundedAbsenceObserved(observations) {
      var x, y :| x in epochs && y in epochs && x < y;
      var i :| 0 <= i < |epochs| && epochs[i] == x;
      var j :| 0 <= j < |epochs| && epochs[j] == y;
      assert missing[i] in observations && missing[j] in observations;
    }
    if a, b :| a in observations && b in observations && a.outcome == NotFound && b.outcome == NotFound && a.observedAtEpochMs < b.observedAtEpochMs {
      EpochIn(missing, a);
      EpochIn(missing, b);
    }
  }

  lemma EpochIn(observations: seq<Observation>, o: Observation)
    requires o in observations
    ensures o.observedAtEpochMs in Epochs(observations)
  {
    var i :| 0 <= i < |observations| && observations[i] == o;
    assert Epochs(observations)[i] == o.observedAtEpochMs;
  }

  // ---------------------------------------------------------------------------------------------
  // Agreement
  // ---------------------------------------------------------------------------------------------

  /** A proof of absence has what the classifier calls a bounded absence. */
  lemma AbsenceIsBounded(order: Order, events: seq<OrderEvent>, observations: seq<Observation>, policy: Policy, now: int)
    requires AbsenceProven(order, events, observations, policy, now) && PolicyOk(policy)
    ensures BoundedAbsenceObserved(observations) && HasEventFrom(events, ABSENCE_CONFIRMED, "RECONCILIATION")
  {
    hide Contradicts, ObservationInPlace, BoundedAbsenceObserved, ExpectedQueries;
    var missing := Filter(observations, IsNotFound);
    var ordered := Sort(missing, ObservationKey);
    SortMembers(missing, ObservationKey);
    var first, latest := ordered[0], ordered[|ordered| - 1];
    assert first in missing && latest in missing;
    BoundedAbsenceIff(observations);
    assert Filter(events, IsAbsence)[0] in events;
  }

  /** An order the recovery finds absent is not blocked exactly when no submission and no UUID is known, and a rejection came from the exchange without a recovery request. */
  lemma AbsentAgreesIff(order: Order, events: seq<OrderEvent>, observations: seq<Observation>, policy: Policy, now: int)
    requires DefinitivelyAbsent(order, events, observations, policy, now) && PolicyOk(policy)
    ensures !Blocking(Classify(order, events, observations)) <==>
            !HasEvent(events, "ORDER_SUBMITTED") && order.upbitUuid.None? &&
            (order.status == Rejected ==> HasEventFrom(events, "ORDER_REJECTED", "EXCHANGE") && !HasEvent(events, "RECONCILIATION_RECOVERY_REQUIRED"))
  {
    hide BoundedAbsenceObserved, Contains;
    if order.status == Rejected {
      RejectionParts(order, events, now);
    } else {
      AbsenceIsBounded(order, events, observations, policy, now);
      hide AbsenceProven;
      AbsenceParts(order, events, observations, policy, now);
    }
  }

  lemma RejectionParts(order: Order, events: seq<OrderEvent>, now: int)
    requires RejectionProven(order, events, now)
    ensures order.failureCode == Some(REJECTION_CODE) && order.upbitUuid.None? && order.exchangeResponse.Some?
  {
  }

  lemma AbsenceParts(order: Order, events: seq<OrderEvent>, observations: seq<Observation>, policy: Policy, now: int)
    requires AbsenceProven(order, events, observations, policy, now)
    ensures order.status == Failed && order.failureCode == Some(ABSENCE_CODE)
    ensures HasEvent(events, "ORDER_SUBMITTED") ==> HasDispatchEvidence(order, events, observations)
    ensures order.upbitUuid.Some? ==> HasDispatchEvidence(order, events, observations)
  {
    hide Contains, Contradicts;
    if e :| e in events && e.eventType == "ORDER_SUBMITTED" { assert e.eventType in DISPATCH_EVENTS; }
  }

  // ---------------------------------------------------------------------------------------------
  // The order of listing does not matter, and evidence of dispatch never unblocks
  // ---------------------------------------------------------------------------------------------

  lemma SameMembers<T>(a: seq<T>, b: seq<T>)
    requires multiset(a) == multiset(b)
    ensures |a| == |b| && forall x :: x in a <==> x in b
  {
    assert |multiset(a)| == |a| && |multiset(b)| == |b|;
    forall x ensures x in a <==> x in b { assert x in multiset(a) <==> x in multiset(b); }
  }

  lemma ClassifyOrderFree(order: Order, events: seq<OrderEvent>, moreEvents: seq<OrderEvent>, os: seq<Observation>, ps: seq<Observation>)
    requires multiset(events) == multiset(moreEvents) && multiset(os) == multiset(ps)
    ensures Classify(order, events, os) == Classify(order, moreEvents, ps)
  {
    hide BoundedAbsenceObserved, Contains;
    SameMembers(events, moreEvents);
    SameMembers(os, ps);
    BoundedAbsenceIff(os);
    BoundedAbsenceIff(ps);
  }

  /** A further FOUND observation or submission event never unblocks an order, and a FOUND one takes the recovery's verdict away. */
  lemma DispatchNeverUnblocks(order: Order, events: seq<OrderEvent>, os: seq<Observation>, e: OrderEvent, o: Observation, policy: Policy, now: int)
    ensures Blocking(Classify(order, events, os)) && e.eventType == "ORDER_SUBMITTED" ==> Blocking(Classify(order, events + [e], os))
    ensures Blocking(Classify(order, events, os)) && o.outcome == Found ==> Blocking(Classify(order, events, os + [o]))
    ensures o.outcome == Found ==> !DefinitivelyAbsent(order, events, os + [o], policy, now)
  {
    hide BoundedAbsenceObserved, Contains, RejectionProven, AbsenceProven;
    assert e in events + [e] && o in os + [o];
  }

  // ---------------------------------------------------------------------------------------------
  // An order on which the verdicts differ
  // ---------------------------------------------------------------------------------------------

  const ASKED := Stamp("2026-01-01T00:00:00.000Z", Some(1000000), Some(1))
  const ANSWERED := Stamp("2026-01-01T00:00:00.001Z", Some(2000000), Some(2))
  const REFUSAL := Rejection(400, None, None)

  /** A dry run's order, rejected by its own simulation. */
  const DRY_RUN_ORDER := Order("o", "i", Rejected, Some(REJECTION_CODE), Some("rejected"), None, Some(Some(REFUSAL)), true, ASKED, ANSWERED)

  const LOCAL_REJECTION := OrderEvent("e", "o", "ORDER_REJECTED", "LOCAL", ANSWERED, Some(REFUSAL))

  /** The recovery knows that the exchange does not have it; the classifier lets it block further submissions. */
  lemma LocalRejectionStillBlocks()
    ensures DefinitivelyAbsent(DRY_RUN_ORDER, [LOCAL_REJECTION], [], Policy(2, 1), 3000000)
    ensures Blocking(Classify(DRY_RUN_ORDER, [LOCAL_REJECTION], []))
  {
    hide Contains;
    assert Filter([LOCAL_REJECTION], IsRejection) == [LOCAL_REJECTION] by { assert [LOCAL_REJECTION][1..] == []; }
    assert "rejected"[0] == 'r';
    AbsentAgreesIff(DRY_RUN_ORDER, [LOCAL_REJECTION], [], Policy(2, 1), 3000000);
  }

  lemma {:induction false} FilterCounts<T(!new)>(s: seq<T>, keep: T -> bool, x: T)
    ensures multiset(Filter(s, keep))[x] == if keep(x) then multiset(s)[x] else 0
  {
    if s != [] {
      FilterCounts(s[1..], keep, x);
      assert s == [s[0]] + s[1..];
    }
  }

  lemma FilterOrderFree<T(!new)>(s: seq<T>, t: seq<T>, keep: T -> bool)
    requires multiset(s) == multiset(t)
    ensures multiset(Filter(s, keep)) == multiset(Filter(t, keep)) && |Filter(s, keep)| == |Filter(t, keep)|
    ensures |Filter(s, keep)| == 1 ==> Filter(s, keep)[0] == Filter(t, keep)[0]
  {
    forall x ensures multiset(Filter(s, keep))[x] == multiset(Filter(t, keep))[x] {
      FilterCounts(s, keep, x);
      FilterCounts(t, keep, x);
    }
    SameMembers(Filter(s, keep), Filter(t, keep));
    if |Filter(s, keep)| == 1 { assert Filter(s, keep)[0] in Filter(t, keep); }
  }

  lemma MissingSortsAlike(os: seq<Observation>, ps: seq<Observation>)
    requires multiset(os) == multiset(ps) && DistinctObservations(os)
    ensures DistinctObservations(ps) && Sort(Filter(os, IsNotFound), ObservationKey) == Sort(Filter(ps, IsNotFound), ObservationKey)
  {
    hide Sort;
    SortOrderFree(os, ps, ObservationIdKey);
    FilterOrderFree(os, ps, IsNotFound);
    FilteredDistinct(os);
    SortOrderFree(Filter(os, IsNotFound), Filter(ps, IsNotFound), ObservationKey);
    forall i, j | 0 <= i < j < |ps| ensures ps[i].id != ps[j].id {
      assert ObservationIdKey(ps[i]) != ObservationIdKey(ps[j]);
    }
  }

  function ObservationIdKey(o: Observation): Key { Key(0, o.id) }

  lemma {:induction false} FilteredDistinct(os: seq<Observation>)
    requires DistinctObservations(os)
    ensures DistinctKeys(Filter(os, IsNotFound), ObservationKey)
  {
    if os != [] {
      FilteredDistinct(os[1..]);
      forall x | x in os[1..] ensures x.id != os[0].id { }
    }
  }

  /** The recovery's verdict does not depend on the order in which events and observations are listed. */
  lemma AbsentOrderFree(order: Order, events: seq<OrderEvent>, moreEvents: seq<OrderEvent>, os: seq<Observation>, ps: seq<Observation>, policy: Policy, now: int)
    requires multiset(events) == multiset(moreEvents) && multiset(os) == multiset(ps)
    requires DefinitivelyAbsent(order, events, os, policy, now)
    ensures DefinitivelyAbsent(order, moreEvents, ps, policy, now)
  {
    hide Sort, Contradicts, ObservationInPlace, ProofInPlace, IsDefinitiveRejection, ExpectedQueries, Filter;
    SameMembers(events, moreEvents);
    SameMembers(os, ps);
    FilterOrderFree(events, moreEvents, IsRejection);
    FilterOrderFree(events, moreEvents, IsAbsence);
    FilterOrderFree(os, ps, IsNotFound);
    if order.status != Rejected { MissingSortsAlike(os, ps); }
  }

  // ---------------------------------------------------------------------------------------------
  // The recovery's procedure
  // ---------------------------------------------------------------------------------------------

  /** The scan of all observations; it stops at the first one that is out of place or repeats an id. */
  method ObservationsInPlace(order: Order, proof: OrderEvent, observations: seq<Observation>, now: int) returns (ok: bool)
    ensures ok <==> DistinctObservations(observations) && forall o :: o in observations ==> ObservationInPlace(o, order, proof, now)
  {
    hide ObservationInPlace;
    var ids: set<string> := {};
    var i := 0;
    while i < |observations|
      invariant 0 <= i <= |observations|
      invariant ids == set k | 0 <= k < i :: observations[k].id
      invariant DistinctObservations(observations[..i])
      invariant forall k :: 0 <= k < i ==> ObservationInPlace(observations[k], order, proof, now)
    {
      var o := observations[i];
      if o.id in ids {
        ghost var k :| 0 <= k < i && observations[k].id == o.id;
        return false;
      }
      if !ObservationInPlace(o, order, proof, now) { return false; }
      ids := ids + {o.id};
      i := i + 1;
    }
    assert observations[..i] == observations;
    ok := true;
  }

  method QueriesAttempted(missing: seq<Observation>, queries: seq<Query>) returns (ok: bool)
    ensures ok <==> forall o :: o in missing ==> o.attempted == Some(queries)
  {
    var i := 0;
    while i < |missing|
      invariant 0 <= i <= |missing|
      invariant forall k :: 0 <= k < i ==> missing[k].attempted == Some(queries)
    {
      if missing[i].attempted != Some(queries) { return false; }
      i := i + 1;
    }
    ok := true;
  }

  /** isDefinitivelyAbsentOrder, in the order of the source's checks. */
  method IsDefinitivelyAbsentOrder(order: Order, events: seq<OrderEvent>, observations: seq<Observation>, policy: Policy, now: int) returns (absent: bool)
    ensures absent == DefinitivelyAbsent(order, events, observations, policy, now)
  {
    hide Contradicts, ObservationInPlace, ProofInPlace, IsDefinitiveRejection, ExpectedQueries, Filter, Sort;
    if order.requestedAt.strict.None? { return false; }
    if exists o :: o in observations && o.outcome == Found { return false; }
    if order.status == Rejected { return RejectionProven(order, events, now); }
    var absences := Filter(events, IsAbsence);
    if order.status != Failed || order.failureCode != Some(ABSENCE_CODE) || order.failureMessage != Some(ABSENCE_MESSAGE) || |absences| != 1 {
      return false;
    }
    var proof := absences[0];
    if !ProofInPlace(proof, order, policy, now) { return false; }
    var queries := ExpectedQueries(order);
    if queries.None? { return false; }
    var inPlace := ObservationsInPlace(order, proof, observations, now);
    if !inPlace { return false; }
    var missing := Filter(observations, IsNotFound);
    var attempted := QueriesAttempted(missing, queries.value);
    if !attempted { return false; }
    var ordered := Sort(missing, ObservationKey);
    if ordered == [] { return false; }
    var first, latest := ordered[0], ordered[|ordered| - 1];
    if latest.observedAt.text != proof.createdAt.text { return false; }
    var elapsedMs := latest.observedAtEpochMs - first.observedAtEpochMs;
    ProofParts(proof, order, policy, now);
    absent := (forall x :: x in events ==> !Contradicts(proof, x)) &&
      |missing| == proof.payload.value.absenceObservationCount && elapsedMs == proof.payload.value.elapsedMs &&
      |missing| >= policy.minimumNotFound && elapsedMs >= policy.minimumElapsedMs;
  }

  lemma ProofParts(proof: OrderEvent, order: Order, policy: Policy, now: int)
    requires ProofInPlace(proof, order, policy, now)
    ensures proof.payload.Some? && proof.payload.value.AbsenceProof?
  {
  }
}
