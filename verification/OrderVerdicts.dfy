/**
 The two verdicts about an order, written out: when it blocks further submissions, and when the
 recovery takes it for absent from the exchange. Nothing here mentions how the verdicts are computed.
 */
module OrderVerdicts {
  import opened Basics
  import opened KeyOrder
  import opened OrderAbsence
  import PilotAudit

  /** The part stands somewhere in the text. */
  ghost predicate Mentions(s: string, part: string) {
    exists before, after :: s == before + part + after
  }

  lemma MentionedAt(s: string, before: string, part: string, after: string)
    requires s == before + part + after
    ensures Mentions(s, part)
  {
  }

  lemma {:induction false} ContainsIff(s: string, part: string)
    ensures Contains(s, part) <==> Mentions(s, part)
  {
    if part <= s {
      MentionedAt(s, [], part, s[|part|..]);
    } else if s != [] {
      ContainsIff(s[1..], part);
      if Mentions(s[1..], part) {
        var before, after :| s[1..] == before + part + after;
        MentionedAt(s, [s[0]] + before, part, after);
      }
      if Mentions(s, part) {
        var before, after :| s == before + part + after;
        StartOrLater(s, before, part, after);
        MentionedAt(s[1..], before[1..], part, after);
      }
    } else {
      NothingInEmpty(part);
    }
  }

  lemma NothingInEmpty(part: string)
    requires part != []
    ensures !Mentions([], part)
  {
    forall before: string, after: string ensures [] != before + part + after {
      assert |before + part + after| > 0;
    }
  }

  lemma StartOrLater(s: string, before: string, part: string, after: string)
    requires s == before + part + after
    ensures if before == [] then part <= s else s[1..] == before[1..] + part + after
  {
  }

  // ---------------------------------------------------------------------------------------------
  // The classifier
  // ---------------------------------------------------------------------------------------------

  /** Something persisted suggests that the order may have reached the exchange. */
  ghost predicate MayBeDispatched(order: Order, events: seq<OrderEvent>, observations: seq<Observation>) {
    || order.upbitUuid.Some?
    || order.exchangeResponse.Some?
    || (exists o :: o in observations && o.outcome == Found)
    || (exists e :: e in events && e.eventType in {"ORDER_SUBMITTED", "ORDER_FILLED", "ORDER_CANCELED", "ORDER_REJECTED", "RECONCILIATION_RECOVERY_REQUIRED",
                                                   "RECONCILIATION_STATUS_UPDATED", "RECONCILIATION_IDENTIFIER_RECOVERY_OBSERVED"})
    || (order.failureCode.Some? && (order.failureCode.value == "EXCHANGE_SUBMISSION_FAILED" || Mentions(order.failureCode.value, "UNCERTAIN") ||
                                    Mentions(order.failureCode.value, "RECONCILIATION")))
  }

  /** The absence of the order was confirmed at two instants, and nothing says that it was submitted. */
  ghost predicate AbsenceConfirmed(order: Order, events: seq<OrderEvent>, observations: seq<Observation>) {
    && order.failureCode == Some("ORDER_SUBMISSION_ABSENCE_CONFIRMED") && order.upbitUuid.None?
    && (exists e :: e in events && e.eventType == "RECONCILIATION_IDENTIFIER_ABSENCE_CONFIRMED" && e.eventSource == "RECONCILIATION")
    && (exists a, b :: a in observations && b in observations && a.outcome == NotFound && b.outcome == NotFound && a.observedAtEpochMs < b.observedAtEpochMs)
    && (forall o :: o in observations ==> o.outcome != Found)
    && (forall e :: e in events ==> e.eventType != "ORDER_SUBMITTED")
  }

  /** The exchange has rejected the order, and nothing says that it was submitted or needs recovery. */
  ghost predicate RejectionConfirmed(order: Order, events: seq<OrderEvent>, observations: seq<Observation>) {
    && order.failureCode == Some("EXCHANGE_ORDER_REJECTED") && order.upbitUuid.None?
    && (exists e :: e in events && e.eventType == "ORDER_REJECTED" && e.eventSource == "EXCHANGE")
    && (forall o :: o in observations ==> o.outcome != Found)
    && (forall e :: e in events ==> e.eventType != "ORDER_SUBMITTED" && e.eventType != "RECONCILIATION_RECOVERY_REQUIRED")
  }

  lemma DispatchIff(order: Order, events: seq<OrderEvent>, observations: seq<Observation>)
    ensures HasDispatchEvidence(order, events, observations) <==> MayBeDispatched(order, events, observations)
  {
    hide Contains, Mentions;
    if order.failureCode.Some? {
      var code := order.failureCode.value;
      ContainsIff(code, "UNCERTAIN");
      ContainsIff(code, "RECONCILIATION");
      UncertainCodes(code);
    }
  }

  lemma UncertainCodes(code: string)
    ensures code == "RECONCILIATION_REQUIRED" ==> Mentions(code, "RECONCILIATION")
    ensures code == "SUBMISSION_RESPONSE_UNCERTAIN" ==> Mentions(code, "UNCERTAIN")
  {
    MentionedAt("RECONCILIATION_REQUIRED", "", "RECONCILIATION", "_REQUIRED");
    MentionedAt("SUBMISSION_RESPONSE_UNCERTAIN", "SUBMISSION_RESPONSE_", "UNCERTAIN", "");
  }

  /**
   An order blocks further submissions in each of the seven statuses in which its submission may still be
   under way, and in no other but FAILED and REJECTED. An order that has failed or was rejected blocks
   exactly if it may have been dispatched and neither its absence nor its rejection is confirmed.
   */
  lemma BlockingIff(order: Order, events: seq<OrderEvent>, observations: seq<Observation>)
    ensures Blocking(Classify(order, events, observations)) <==>
              match order.status
              case IntentCreated => true
              case PersistedOrder => true
              case Submitting => true
              case Open => true
              case PartiallyFilled => true
              case CancelRequested => true
              case ReconciliationRequired => true
              case OtherTerminal => false
              case Failed => MayBeDispatched(order, events, observations) && !AbsenceConfirmed(order, events, observations)
              case Rejected => MayBeDispatched(order, events, observations) && !RejectionConfirmed(order, events, observations)
  {
    hide HasDispatchEvidence, BoundedAbsenceObserved, MayBeDispatched;
    DispatchIff(order, events, observations);
    BoundedAbsenceIff(observations);
  }

  /** The reason that goes with the verdict. */
  lemma ReasonIs(order: Order, events: seq<OrderEvent>, observations: seq<Observation>)
    ensures Classify(order, events, observations) ==
            match order.status
            case OtherTerminal => ResolvedTerminal
            case Failed =>
              if AbsenceConfirmed(order, events, observations) then BoundedAbsenceConfirmed
              else if MayBeDispatched(order, events, observations) then UnresolvedPotentiallyDispatched else DefinitivePreSendTerminal
            case Rejected =>
              if RejectionConfirmed(order, events, observations) then ExchangeRejectionConfirmed
              else if MayBeDispatched(order, events, observations) then UnresolvedPotentiallyDispatched else DefinitivePreSendTerminal
            case _ => ActiveSubmissionLifecycle
  {
    hide HasDispatchEvidence, BoundedAbsenceObserved, MayBeDispatched;
    DispatchIff(order, events, observations);
    BoundedAbsenceIff(observations);
  }

  // ---------------------------------------------------------------------------------------------
  // The recovery
  // ---------------------------------------------------------------------------------------------

  /** The only event of its type, and recorded once. */
  ghost predicate IsOnly(events: seq<OrderEvent>, e: OrderEvent, eventType: string) {
    e.eventType == eventType && multiset(events)[e] == 1 && forall x :: x in events && x.eventType == eventType ==> x == e
  }

  predicate Before(x: OrderEvent, e: OrderEvent) {
    x.createdAt.ms.Some? && e.createdAt.ms.Some? && x.createdAt.ms.value < e.createdAt.ms.value
  }

  /** No other event from then on speaks of the exchange or of a dispatch. */
  ghost predicate Uncontradicted(events: seq<OrderEvent>, e: OrderEvent) {
    forall x :: x in events && x.id != e.id && !Before(x, e) ==>
        && x.eventSource != "EXCHANGE" && x.payload.Some? && (x.payload.value.OtherRecord? ==> !x.payload.value.contradicts)
        && forall word :: word in {"SUBMITTED", "ACCEPTED", "FILL", "CANCELED", "TERMINAL", "EXCHANGE_ORDER_RECOVERED"} ==> !Mentions(Upper(x.eventType), word)
  }

  lemma UncontradictedIff(events: seq<OrderEvent>, e: OrderEvent)
    ensures Uncontradicted(events, e) <==> forall x :: x in events ==> !Contradicts(e, x)
  {
    hide Contains, Mentions, Upper;
    forall x, word ensures Contains(Upper(x), word) <==> Mentions(Upper(x), word) { ContainsIff(Upper(x), word); }
    forall x | x in events ensures NamesDispatch(x.eventType) <==>
        exists word :: word in {"SUBMITTED", "ACCEPTED", "FILL", "CANCELED", "TERMINAL", "EXCHANGE_ORDER_RECOVERED"} && Mentions(Upper(x.eventType), word) {
    }
    hide NamesDispatch;
  }

  lemma OnlyIff(events: seq<OrderEvent>, keep: OrderEvent -> bool, eventType: string)
    requires forall e :: keep(e) <==> e.eventType == eventType
    ensures |Filter(events, keep)| == 1 ==> IsOnly(events, Filter(events, keep)[0], eventType)
    ensures forall e :: IsOnly(events, e, eventType) ==> |Filter(events, keep)| == 1 && Filter(events, keep)[0] == e
  {
    var kept := Filter(events, keep);
    forall e ensures multiset(kept)[e] == if keep(e) then multiset(events)[e] else 0 { FilterCounts(events, keep, e); }
    if |kept| == 1 {
      assert kept == [kept[0]];
      assert multiset(kept) == multiset{kept[0]};
      forall x | x in events && x.eventType == eventType ensures x == kept[0] { assert x in kept; }
    }
    forall e | IsOnly(events, e, eventType) ensures |kept| == 1 && kept[0] == e { SingleFrom(kept, e); }
  }

  lemma SingleFrom(kept: seq<OrderEvent>, e: OrderEvent)
    requires multiset(kept)[e] == 1 && forall x :: x in kept ==> x == e
    ensures |kept| == 1 && kept[0] == e
  {
    forall x ensures multiset(kept)[x] == multiset{e}[x] {
      if x in multiset(kept) { assert x in kept; }
    }
    assert multiset(kept) == multiset{e} && |multiset(kept)| == |kept|;
    assert kept[0] in kept;
  }

  /** The exchange answered the order with a definite refusal, of a kind that cannot hide an accepted duplicate. */
  ghost predicate Refusal(p: Payload) {
    && p.Rejection? && 400 <= p.status <= 499 && p.status != 408 && p.status != 429
    && (p.exchangeCode.Some? ==> Upper(Trim(p.exchangeCode.value)) != "DUPLICATE_IDENTIFIER")
    && (p.exchangeName.Some? ==> Upper(Trim(p.exchangeName.value)) != "DUPLICATE_IDENTIFIER")
  }

  /** The 26 small letters become capitals, and nothing else changes. */
  lemma UpperIs(k: nat, c: char)
    ensures k < 26 ==> Upper(["abcdefghijklmnopqrstuvwxyz"[k]]) == ["ABCDEFGHIJKLMNOPQRSTUVWXYZ"[k]]
    ensures c !in "abcdefghijklmnopqrstuvwxyz" ==> Upper([c]) == [c]
  {
    if 'a' <= c <= 'z' { assert "abcdefghijklmnopqrstuvwxyz"[c as int - 'a' as int] == c; }
  }

  predicate IsBlank(s: string) { forall i :: 0 <= i < |s| ==> s[i] in {' ', '\t', '\n', '\r'} }

  /** Blanks are taken from both ends and from nowhere else. */
  lemma {:induction false} TrimIs(left: string, core: string, right: string)
    requires IsBlank(left) && IsBlank(right)
    requires core != [] ==> !IsBlank([core[0]]) && !IsBlank([core[|core| - 1]])
    ensures Trim(left + core + right) == core
    decreases |left| + |right|
  {
    var s := left + core + right;
    if left != [] {
      assert s[0] == left[0] && s[1..] == left[1..] + core + right;
      TrimIs(left[1..], core, right);
    } else if right != [] && core != [] {
      assert s[|s| - 1] == right[|right| - 1] && s[..|s| - 1] == left + core + right[..|right| - 1];
      assert s[0] == [core[0]][0];
      TrimIs(left, core, right[..|right| - 1]);
    } else if right != [] {
      assert s == right && s[1..] == left + core + right[1..];
      TrimIs(left, core, right[1..]);
    } else {
      assert s == core;
      assert core != [] ==> core[0] == [core[0]][0] && core[|core| - 1] == [core[|core| - 1]][0];
    }
  }

  /** A rejected order is taken for absent exactly on one uncontradicted rejection with a definite refusal, its own last update. */
  lemma RejectedAbsentIff(order: Order, events: seq<OrderEvent>, observations: seq<Observation>, policy: Policy, now: int)
    requires order.status == Rejected
    ensures DefinitivelyAbsent(order, events, observations, policy, now) <==>
              && (forall o :: o in observations ==> o.outcome != Found)
              && order.failureCode == Some("EXCHANGE_ORDER_REJECTED") && order.upbitUuid.None?
              && order.failureMessage.Some? && PilotAudit.NonBlank(order.failureMessage.value)
              && order.requestedAt.strict.Some?
              && exists e :: IsOnly(events, e, "ORDER_REJECTED") && Uncontradicted(events, e) &&
                   e.orderId == order.id && e.createdAt.text == order.updatedAt.text &&
                   e.createdAt.strict.Some? && order.requestedAt.strict.value <= e.createdAt.strict.value <= now &&
                   (e.eventSource == "EXCHANGE" || (order.dryRun && e.eventSource == "LOCAL")) &&
                   e.payload.Some? && Refusal(e.payload.value) && order.exchangeResponse == Some(Some(e.payload.value))
  {
    hide Contradicts, Uncontradicted, Upper, Trim, PilotAudit.NonBlank, Filter, IsOnly;
    OnlyIff(events, IsRejection, "ORDER_REJECTED");
    forall e { UncontradictedIff(events, e); }
    forall e | e in Filter(events, IsRejection) ensures e.eventType == "ORDER_REJECTED" {}
  }

  /** An observation of this order, made between its request and the proof, and not in the future. */
  ghost predicate Made(o: Observation, order: Order, proof: OrderEvent, now: int) {
    && o.orderId == order.id && o.createdAt == o.observedAt.text && o.observedAt.ms == Some(o.observedAtEpochMs)
    && o.observedAt.strict.Some? && order.requestedAt.strict.Some? && proof.createdAt.strict.Some?
    && order.requestedAt.strict.value <= o.observedAt.strict.value <= proof.createdAt.strict.value
    && o.observedAt.strict.value <= now
  }

  /** Observations of a missing order, the earliest and the latest of them; at one instant the identifier decides. */
  ghost predicate Spans(observations: seq<Observation>, first: Observation, latest: Observation) {
    && first in observations && first.outcome == NotFound && latest in observations && latest.outcome == NotFound
    && forall o :: o in observations && o.outcome == NotFound ==>
         && first.observedAtEpochMs <= o.observedAtEpochMs
         && (o == latest || o.observedAtEpochMs < latest.observedAtEpochMs ||
             (o.observedAtEpochMs == latest.observedAtEpochMs && LexLess(o.id, latest.id)))
  }

  ghost function Missing(observations: seq<Observation>): set<Observation> {
    set o | o in observations && o.outcome == NotFound
  }

  lemma {:induction false} DistinctCount(s: seq<Observation>)
    requires DistinctKeys(s, ObservationKey)
    ensures |(set o | o in s)| == |s|
  {
    if s != [] {
      DistinctCount(s[1..]);
      assert s == [s[0]] + s[1..];
      forall o | o in s[1..] ensures o != s[0] {}
      assert (set o | o in s) == (set o | o in s[1..]) + {s[0]};
    }
  }

  lemma MissingCount(observations: seq<Observation>)
    requires DistinctObservations(observations)
    ensures |Missing(observations)| == |Filter(observations, IsNotFound)|
  {
    hide Filter;
    var missing := Filter(observations, IsNotFound);
    FilteredDistinct(observations);
    DistinctCount(missing);
    assert Missing(observations) == (set o | o in missing);
  }

  /** The ends of the sorted observations are the earliest and the latest. */
  lemma SortedSpan(observations: seq<Observation>)
    requires DistinctObservations(observations)
    ensures var ordered := Sort(Filter(observations, IsNotFound), ObservationKey);
            (ordered == [] <==> Missing(observations) == {}) && (ordered != [] ==> Spans(observations, ordered[0], ordered[|ordered| - 1]))
  {
    hide Filter, Sort, LexLess;
    var missing := Filter(observations, IsNotFound);
    var ordered := Sort(missing, ObservationKey);
    FilteredDistinct(observations);
    SortSorted(missing, ObservationKey);
    SortMembers(missing, ObservationKey);
    forall o | o in Missing(observations) ensures o in ordered { assert o in missing; }
    if ordered != [] {
      var low, high := ordered[0], ordered[|ordered| - 1];
      assert low in missing && high in missing;
      forall o | o in Missing(observations)
        ensures low.observedAtEpochMs <= o.observedAtEpochMs && (o == high || KeyLess(ObservationKey(o), ObservationKey(high)))
      {
        var i :| 0 <= i < |ordered| && ordered[i] == o;
      }
    }
  }

  /** There is one latest observation, and one instant of the earliest. */
  lemma SpansAgree(observations: seq<Observation>, first: Observation, latest: Observation, low: Observation, high: Observation)
    requires Spans(observations, first, latest) && Spans(observations, low, high)
    ensures latest == high && first.observedAtEpochMs == low.observedAtEpochMs
  {
    hide LexLess;
    KeyTotal(ObservationKey(high), ObservationKey(latest));
  }

  lemma SpanIff(observations: seq<Observation>)
    requires DistinctObservations(observations)
    ensures var ordered := Sort(Filter(observations, IsNotFound), ObservationKey);
            (ordered != [] ==> Spans(observations, ordered[0], ordered[|ordered| - 1])) &&
            forall first, latest :: Spans(observations, first, latest) ==>
              ordered != [] && ordered[|ordered| - 1] == latest && ordered[0].observedAtEpochMs == first.observedAtEpochMs
  {
    hide Filter, Sort, Spans;
    SortedSpan(observations);
    var ordered := Sort(Filter(observations, IsNotFound), ObservationKey);
    forall first, latest | Spans(observations, first, latest)
      ensures ordered != [] && ordered[|ordered| - 1] == latest && ordered[0].observedAtEpochMs == first.observedAtEpochMs
    {
      SpansHas(observations, first, latest);
      SpansAgree(observations, first, latest, ordered[0], ordered[|ordered| - 1]);
    }
  }

  lemma SpansHas(observations: seq<Observation>, first: Observation, latest: Observation)
    requires Spans(observations, first, latest)
    ensures first in Missing(observations)
  {
  }

  /**
   A failed order is taken for absent exactly on one uncontradicted confirmation of its absence, its own last
   update, that states the configured bounds and what the observations show: all in place and none a
   find, at least as many missing as demanded, over at least the time demanded, the last at the
   confirmation itself, and each made with every query there is.
   */
  lemma FailedAbsentIff(order: Order, events: seq<OrderEvent>, observations: seq<Observation>, policy: Policy, now: int)
    requires order.status == Failed
    ensures DefinitivelyAbsent(order, events, observations, policy, now) <==>
              && (forall o :: o in observations ==> o.outcome != Found)
              && order.failureCode == Some("ORDER_SUBMISSION_ABSENCE_CONFIRMED")
              && order.failureMessage == Some("Bounded identifier recovery confirmed persistent exchange absence.")
              && order.requestedAt.strict.Some?
              && PilotAudit.NonBlank(order.identifier) && (order.upbitUuid.Some? ==> PilotAudit.NonBlank(order.upbitUuid.value))
              && DistinctObservations(observations)
              && exists e, first, latest ::
                   IsOnly(events, e, "RECONCILIATION_IDENTIFIER_ABSENCE_CONFIRMED") && Spans(observations, first, latest) && Uncontradicted(events, e) &&
                   e.id == "identifier-recovery-absence-event:" + order.id && e.orderId == order.id && e.eventSource == "RECONCILIATION" &&
                   e.createdAt.text == order.updatedAt.text == latest.observedAt.text &&
                   e.createdAt.strict.Some? && order.requestedAt.strict.value <= e.createdAt.strict.value <= now &&
                   (forall o :: o in observations ==> Made(o, order, e, now)) &&
                   (forall o :: o in Missing(observations) ==>
                      o.attempted == Some((if order.upbitUuid.Some? then [ByUuid(order.upbitUuid.value)] else []) + [ByIdentifier(order.identifier)])) &&
                   var count, elapsed := |Missing(observations)|, latest.observedAtEpochMs - first.observedAtEpochMs;
                   elapsed >= 0 && e.payload == Some(AbsenceProof(count, elapsed, policy.minimumNotFound, policy.minimumElapsedMs)) &&
                   count >= policy.minimumNotFound && elapsed >= policy.minimumElapsedMs
  {
    hide Contradicts, Uncontradicted, Upper, PilotAudit.NonBlank, Filter, IsOnly, Spans, Sort, LexLess, DistinctObservations, IsNotFound;
    OnlyIff(events, IsAbsence, ABSENCE_CONFIRMED);
    forall e { UncontradictedIff(events, e); }
    MissingIs(observations);
    if DistinctObservations(observations) {
      MissingCount(observations);
      SpanIff(observations);
    }
  }

  lemma MissingIs(observations: seq<Observation>)
    ensures forall o :: o in Filter(observations, IsNotFound) <==> o in Missing(observations)
  {
    hide Filter;
  }

  /** No other order is ever taken for absent. */
  lemma OnlyFailedOrRejected(order: Order, events: seq<OrderEvent>, observations: seq<Observation>, policy: Policy, now: int)
    requires DefinitivelyAbsent(order, events, observations, policy, now)
    ensures order.status == Failed || order.status == Rejected
  {
    hide RejectionProven;
    if order.status != Rejected { AbsenceParts(order, events, observations, policy, now); }
  }
}
