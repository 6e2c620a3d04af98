/**
 The other way round: what the start-up validator accepts, the inspector passes exactly when three
 conditions hold that the validator does not ask for. The activation must be strictly later than the
 creation, every record strictly later than the activation, and a fault the last event of the log.
 */
module InspectorCompleteness {
  import opened Basics
  import opened DecimalText
  import opened KeyOrder
  import opened CandidateReplay
  import LedgerLaws
  import opened PilotAudit
  import opened PilotMachine
  import opened PilotReachability
  import opened StartupValidator
  import opened StartupLogs
  import opened StartupTheorem
  import opened RoutableStates
  import opened StartupMain
  import opened ReadinessInspector
  import opened InspectorStrictness

  /** What the inspector asks beyond the start-up validator. */
  predicate InOrder(d: Deployment, evidence: seq<EvidenceRecord>, log: seq<AuditEvent>) {
    && (d.activationAt.Some? ==> d.createdAt.epochNs < d.activationAt.value.epochNs)
    && (d.activationAt.Some? ==> forall i :: 0 <= i < |evidence| ==> RecordAt(evidence[i]) > d.activationAt.value.epochNs)
    && (forall f :: f in log && f.eventType == FaultPaused ==> f == log[|log| - 1])
  }

  // ---------------------------------------------------------------------------------------------
  // Positions
  // ---------------------------------------------------------------------------------------------

  lemma {:induction false} IndexAt(log: seq<AuditEvent>, i: nat)
    requires DistinctIds(log) && i < |log|
    ensures IndexOf(log, log[i]) == i
  {
    if i > 0 {
      assert log[0].id != log[i].id;
      IndexAt(log[1..], i - 1);
    }
  }

  /** The last event is after every other, and whatever is after every other is the last. */
  lemma LastIff(log: seq<AuditEvent>, f: AuditEvent)
    requires DistinctIds(log) && f in log
    ensures f == log[|log| - 1] <==> forall e :: e in log && e != f ==> IndexOf(log, e) < IndexOf(log, f)
  {
    hide IndexOf, DistinctIds;
    var last := log[|log| - 1];
    IndexAt(log, |log| - 1);
    if f == last {
      forall e | e in log && e != f ensures IndexOf(log, e) < IndexOf(log, f) { IndexOfFound(log, e); }
    } else {
      IndexOfFound(log, f);
      assert last in log && IndexOf(log, last) == |log| - 1;
    }
  }

  /** The least event is the first. */
  lemma FirstIs(log: seq<AuditEvent>, c: AuditEvent)
    requires StrictlySorted(log, EventKey) && c in log && forall e :: e in log && e != c ==> KeyLess(EventKey(c), EventKey(e))
    ensures log[0] == c
  {
    hide KeyLess, EventKey;
    var i :| 0 <= i < |log| && log[i] == c;
    if log[0] != c { KeyTotal(EventKey(log[0]), EventKey(c)); }
  }

  // ---------------------------------------------------------------------------------------------
  // From the machine to the inspector
  // ---------------------------------------------------------------------------------------------

  lemma CreationLeast(m: Machine, e: AuditEvent)
    requires WellShaped(m) && InOrder(m.deployment, m.evidence, m.log) && e in m.log && e != CreatedEvent(m.deployment) && e.eventType != FaultPaused
    ensures KeyLess(EventKey(CreatedEvent(m.deployment)), EventKey(e))
  {
    hide Replay, RecordValid, StrictlySorted, DistinctIds, NonBlank, IsFill, IsRollbackFlat, LexLess, CreatedId, ActivationId, EvidenceEventId, StartedId, CompletedId,
      FaultPayloadAccepted, NotBeforeEvidence, AfterEvidence, IsSell;
    var d := m.deployment;
    assert IsCausal(e, m);
    IdentifierTieBreaks(d.id, "", 0, 0, d.updatedAt.epochNs);
    LexTransitive(CreatedId(d.id), EvidenceEventId(d.id, ""), CompletedId(d.id, d.updatedAt.epochNs));
  }

  lemma CreationFirst(m: Machine)
    requires WellShaped(m) && InOrder(m.deployment, m.evidence, m.log)
    ensures CreationIsFirst(m.deployment, m.log)
  {
    var c := CreatedEvent(m.deployment);
    ExpectedOfShaped(m);
    ExpectedHeads(m);
    OfTypeMembers(m.log, DeploymentCreated, c);
    forall e | e in m.log && e != c ensures KeyLess(EventKey(c), EventKey(e)) {
      if e.eventType == FaultPaused { FaultAfter(m, c, e); } else { CreationLeast(m, e); }
    }
    FirstIs(m.log, c) by { hide IsCausal, EventKey, KeyLess, EvidenceOk, RollbackOk, EndingOk, OfType; }
  }

  lemma FaultAfter(m: Machine, x: AuditEvent, f: AuditEvent)
    requires WellShaped(m) && InOrder(m.deployment, m.evidence, m.log) && x in m.log && f in m.log && f.eventType == FaultPaused && x != f
    ensures KeyLess(EventKey(x), EventKey(f)) && IndexOf(m.log, x) < IndexOf(m.log, f)
  {
    hide IsCausal, EventKey, KeyLess, EvidenceOk, RollbackOk, EndingOk, ActivationOk, NonBlank, IndexOf;
    LastIff(m.log, f);
    IndexOrder(m.log, x, f);
  }

  lemma StartInspectedOfShaped(m: Machine)
    requires WellShaped(m) && m.shape.rollback.Some?
    ensures OnlyRollback(m.log) == Some(StartedEvent(m.deployment, m.shape.rollback.value, m.shape.boundary))
    ensures StateEventsBefore(m.log, OnlyRollback(m.log).value) == m.shape.boundary
    ensures StartInspected(m.deployment, m.evidence, m.log, OnlyRollback(m.log).value)
  {
    ExpectedOfShaped(m);
    ExpectedHeads(m);
    var s := StartedEvent(m.deployment, m.shape.rollback.value, m.shape.boundary);
    OfTypeMembers(m.log, RollbackStarted, s);
    ShapedBoundary(m);
    PrefixCountIsCut(m.log, s);
    ActivationBeforeStart(m);
    hide IsCausal, OfType, LogOk, Replay, RecordValid, StrictlySorted, DistinctIds, NonBlank, StateEventsBefore, PrecedingCount, IndexOf, EndingOk, ActivationId,
      StateEvents;
  }

  lemma StatesInspectedOfShaped(m: Machine, boundary: Option<nat>)
    requires WellShaped(m) && InOrder(m.deployment, m.evidence, m.log)
    requires boundary == if m.shape.rollback.Some? then Some(m.shape.boundary) else None
    ensures StatesInspected(m.deployment, m.state, m.evidence, m.log, boundary)
  {
    hide IsCausal, OfType, Replay, RecordValid, StrictlySorted, DistinctIds, NonBlank, IndexOf, EndingOk, StateInspected, IsFill, IsSell, InOrder, ActivationOk, RollbackOk;
    ExpectedOfShaped(m);
    ExpectedHeads(m);
    VersionOfShaped(m);
    forall i | 0 < i < |m.evidence| ensures IndexOf(m.log, StateEvents(m)[i - 1]) < IndexOf(m.log, StateEvents(m)[i]) { StatesAscend(m, i); }
    forall i | 0 <= i < |m.evidence| ensures StateInspected(m.deployment, m.evidence[i], StateEvents(m)[i], i, PhaseAt(boundary, i)) {
      StateInspectedOfShaped(m, boundary, i);
    }
  }

  lemma StatesAscend(m: Machine, i: nat)
    requires WellShaped(m) && 0 < i < |m.evidence|
    ensures |StateEvents(m)| == |m.evidence|
    ensures IndexOf(m.log, StateEvents(m)[i - 1]) < IndexOf(m.log, StateEvents(m)[i])
  {
    hide OfType, StrictlySorted, DistinctIds, IndexOf, EvidenceOk, RollbackOk, ActivationOk, EndingOk, IsCausal, EventKey, KeyLess, NonBlank;
    EvidenceSorted(m);
    StateEventsSorted(m);
    RecordEventInLog(m, i - 1);
    RecordEventInLog(m, i);
    IndexOrder(m.log, StateEvents(m)[i - 1], StateEvents(m)[i]);
    SortedPair(StateEvents(m), i - 1, i);
  }

  lemma EvidenceSorted(m: Machine)
    requires WellShaped(m)
    ensures StrictlySorted(m.evidence, RecordKey)
  {
    hide RecordValid, Replay, StrictlySorted, LogOk, RollbackOk, ActivationOk, EndingOk, NonBlank;
  }

  lemma StateInspectedOfShaped(m: Machine, boundary: Option<nat>, i: nat)
    requires WellShaped(m) && InOrder(m.deployment, m.evidence, m.log) && i < |m.evidence|
    requires boundary == if m.shape.rollback.Some? then Some(m.shape.boundary) else None
    ensures |StateEvents(m)| == |m.evidence|
    ensures StateInspected(m.deployment, m.evidence[i], StateEvents(m)[i], i, PhaseAt(boundary, i))
  {
    hide IsCausal, OfType, Replay, RecordValid, StrictlySorted, DistinctIds, NonBlank, IndexOf, EndingOk, EvidenceEventId, IsFill, IsSell;
    RecordIs(m, i);
  }

  lemma SortedPair(s: seq<AuditEvent>, i: nat, j: nat)
    requires StrictlySorted(s, EventKey) && i < j < |s|
    ensures KeyLess(EventKey(s[i]), EventKey(s[j]))
  {
    hide KeyLess, EventKey;
  }

  lemma RecordIs(m: Machine, i: nat)
    requires EvidenceOk(m) && i < |m.evidence|
    ensures m.deployment.activationAt.Some? && m.evidence[i].materialHash == HashOf(m.deployment.id, m.evidence[i].evidence) && m.evidence[i].materialVersion == ExactV2
  {
    hide Replay, MaterialAccepted, StrictlySorted, IsFill;
    assert RecordValid(m.evidence[i], m.deployment.id);
  }

  /** Whatever ends the log stands after the state events. */
  lemma LastPrecedes(m: Machine, e: AuditEvent)
    requires WellShaped(m) && m.log != [] && e == m.log[|m.log| - 1] && e.eventType != StateAdvanced
    ensures PrecedesAllState(m.log, e)
    ensures forall x :: x in m.log && x != e ==> IndexOf(m.log, x) < IndexOf(m.log, e)
  {
    hide IsCausal, OfType, EvidenceOk, RollbackOk, EndingOk, ActivationOk, NonBlank, IndexOf, DistinctIds;
    LastIff(m.log, e);
    var states := OfType(m.log, StateAdvanced);
    if states != [] { OfTypeMembers(m.log, StateAdvanced, states[|states| - 1]); }
  }

  lemma FaultInspectedOfShaped(m: Machine)
    requires WellShaped(m) && InOrder(m.deployment, m.evidence, m.log) && m.deployment.phase == PausedFault
    ensures FaultInspected(m.deployment, m.state, m.evidence, m.log, OnlyRollback(m.log))
  {
    ExpectedOfShaped(m);
    ExpectedHeads(m);
    VersionOfShaped(m);
    OfTypeMembers(m.log, FaultPaused, m.shape.ending.fault);
    LastPrecedes(m, m.shape.ending.fault);
    if m.shape.rollback.Some? { OfTypeMembers(m.log, RollbackStarted, StartedEvent(m.deployment, m.shape.rollback.value, m.shape.boundary)); }
    if m.deployment.activationAt.Some? { OfTypeMembers(m.log, PhaseTransition, ActivationEvent(m.deployment)); }
    hide IsCausal, OfType, LogOk, Replay, RecordValid, StrictlySorted, DistinctIds, NonBlank, IndexOf, StateEvents, FaultPayloadAccepted, PrecedesAllState, StartedId,
      ActivationId, EvidenceOk;
  }

  lemma CompletionInspectedOfShaped(m: Machine)
    requires WellShaped(m) && m.deployment.phase == Disabled
    ensures CompletionInspected(m.deployment, m.state, m.log, OnlyRollback(m.log))
  {
    ExpectedOfShaped(m);
    ExpectedHeads(m);
    VersionOfShaped(m);
    CompletionIsLast(m);
    LastPrecedes(m, EndingEvent(m));
    if m.shape.rollback.Some? { OfTypeMembers(m.log, RollbackStarted, StartedEvent(m.deployment, m.shape.rollback.value, m.shape.boundary)); }
    hide IsCausal, OfType, LogOk, Replay, RecordValid, StrictlySorted, DistinctIds, NonBlank, IndexOf, StateEvents, IsRollbackFlat, PrecedesAllState, StartedId,
      CompletedId, EvidenceOk;
  }

  lemma PhaseInspectedOfShaped(m: Machine)
    requires WellShaped(m) && InOrder(m.deployment, m.evidence, m.log)
    ensures PhaseInspected(m.deployment, m.state, m.evidence, m.log)
  {
    ExpectedOfShaped(m);
    ExpectedHeads(m);
    VersionOfShaped(m);
    if m.deployment.phase == PausedFault { FaultInspectedOfShaped(m); }
    if m.deployment.phase == Disabled { CompletionInspectedOfShaped(m); }
    hide IsCausal, OfType, LogOk, Replay, RecordValid, StrictlySorted, DistinctIds, NonBlank, IndexOf, StateEvents, IsRollbackFlat, FaultInspected, CompletionInspected,
      StartedId, FaultPayloadAccepted, CompletedId;
  }

  lemma ActivationInspectedOfShaped(m: Machine)
    requires WellShaped(m) && InOrder(m.deployment, m.evidence, m.log)
    ensures ActivationInspected(m.deployment, m.evidence, m.log)
    ensures |OfType(m.log, RollbackStarted)| <= 1
    ensures m.shape.rollback.None? ==> OnlyRollback(m.log) == None
  {
    ExpectedOfShaped(m);
    ExpectedHeads(m);
    hide IsCausal, OfType, LogOk, Replay, RecordValid, StrictlySorted, DistinctIds, NonBlank, IndexOf, StateEvents, EndingOk, StartedId, ActivationId, IsFill;
  }

  lemma LifecycleInspectedOfShaped(m: Machine)
    requires WellShaped(m) && InOrder(m.deployment, m.evidence, m.log)
    ensures LifecycleInspected(m.deployment, m.state, m.evidence, m.log)
  {
    hide WellShaped, InOrder, IsCausal, OfType, StartInspected, StatesInspected, PhaseInspected, ActivationInspected, StateEventsBefore, CreationIsFirst, OnlyRollback,
      StartedEvent;
    CreationFirst(m);
    ActivationInspectedOfShaped(m);
    if m.shape.rollback.Some? { StartInspectedOfShaped(m); }
    StatesInspectedOfShaped(m, if m.shape.rollback.Some? then Some(m.shape.boundary) else None);
    PhaseInspectedOfShaped(m);
    LogCounted(m);
  }

  /** Every event is of one of the types that the inspector counts. */
  lemma LogCounted(m: Machine)
    requires WellShaped(m)
    ensures |m.log| == 1 + |OfType(m.log, PhaseTransition)| + |OfType(m.log, StateAdvanced)| + |OfType(m.log, RollbackStarted)|
                       + |OfType(m.log, RollbackCompleted)| + |OfType(m.log, FaultPaused)|
  {
    hide WellShaped, IsCausal, OfType;
    OfTypeCount(m.log);
    ExpectedOfShaped(m);
    ExpectedHeads(m);
  }

  lemma RowsOfShaped(m: Machine, now: Timestamp)
    requires WellShaped(m) && NothingLater(m.log, now)
    ensures RowsAccepted(m.log, m.deployment, m.state, now)
  {
    hide Replay, RecordValid, KeyLess, EventKey, RecordKey, CreatedId, ActivationId, EvidenceEventId, StartedId, CompletedId;
    ScanSuffices(m.log, EventKey);
    VersionOfShaped(m);
    forall i | 0 <= i < |m.log| ensures RowAccepted(m.log[i], m.deployment, m.state, now) {
      assert m.log[i] in m.log;
      CausalEventAccepted(m, m.log[i]);
    }
  }

  lemma RowReadOfShaped(m: Machine)
    requires WellShaped(m) && Readable(m.state)
    ensures StateRowRead(m.state)
  {
    hide LogOk, EndingOk, RollbackOk, ActivationOk, NonBlank, StrictlySorted, Replay, Readable, Replayed, LedgerLaws.Coherent, IsFill;
    forall e | e in Items(m.evidence) ensures MaterialAccepted(e) {
      var i :| 0 <= i < |Items(m.evidence)| && Items(m.evidence)[i] == e;
      assert RecordValid(m.evidence[i], m.deployment.id);
    }
    ReplayIsReplayed(Items(m.evidence), m.state);
    RowReadOfReplayed(m.state);
  }

  lemma RowReadOfReplayed(s: ExactState)
    requires LedgerLaws.Coherent(s) && Replayed(s) && Readable(s)
    ensures StateRowRead(s)
  {
    hide IsCanonicalNonNegative, IsCanonicalSigned, LedgerLaws.IsPrinted, LedgerLaws.Amount, NonBlank, Readable, IsOpenQuantity;
    TextsIff(s);
  }

  lemma ReplayInspectedOfShaped(m: Machine)
    requires WellShaped(m) && Readable(m.state)
    ensures ReplayInspected(m.deployment, m.state, m.evidence)
  {
    RowReadOfShaped(m);
    hide LogOk, EndingOk, RollbackOk, ActivationOk, NonBlank, Replay, Readable, StateRowRead, RecordValid, IsFill;
    ProjectSorted(m.evidence);
  }

  // ---------------------------------------------------------------------------------------------
  // From the inspector to the three conditions
  // ---------------------------------------------------------------------------------------------

  lemma FaultIsLast(a: Authority, checkedAt: Timestamp, m: Machine, f: AuditEvent)
    requires Inspects(a, checkedAt) && WellShaped(m) && m == Machine(a.deployment, a.evidence, a.exactState, a.events, m.shape)
    requires f in a.events && f.eventType == FaultPaused
    ensures f == a.events[|a.events| - 1]
  {
    hide Inspects, WellShaped, IndexOf, IsCausal;
    LogParts(m, f);
    forall e | e in a.events && e != f ensures IndexOf(a.events, e) < IndexOf(a.events, f) { BeforeFault(a, checkedAt, m, f, e); }
    LastIff(a.events, f);
  }

  lemma LogParts(m: Machine, e: AuditEvent)
    requires WellShaped(m) && e in m.log
    ensures StrictlySorted(m.log, EventKey) && DistinctIds(m.log) && IsCausal(e, m)
    ensures e.eventType == FaultPaused ==> m.deployment.phase == PausedFault && e == m.shape.ending.fault
  {
    hide EvidenceOk, RollbackOk, ActivationOk, NonBlank, StrictlySorted, DistinctIds, FaultPayloadAccepted;
  }

  lemma BeforeFault(a: Authority, checkedAt: Timestamp, m: Machine, f: AuditEvent, e: AuditEvent)
    requires Inspects(a, checkedAt) && WellShaped(m) && m == Machine(a.deployment, a.evidence, a.exactState, a.events, m.shape)
    requires f in a.events && f.eventType == FaultPaused && e in a.events && e != f
    ensures IndexOf(a.events, e) < IndexOf(a.events, f)
  {
    LogParts(m, f);
    LogParts(m, e);
    ExpectedOfShaped(m);
    ExpectedHeads(m);
    var log := a.events;
    hide WellShaped, ReplayInspected, RowsAccepted, StartedId, ActivationId, CreatedId, StrictlySorted;
    match e.eventType {
      case DeploymentCreated =>
        IndexAt(log, 0);
        IndexOfFound(log, f);
        IdsDecide(log, log[0], e);
        hide StatesInspected, PhaseInspected, StartInspected, DistinctIds;
      case StateAdvanced =>
        StateBeforeFault(a, checkedAt, m, f, e);
      case _ =>
        hide OfType, StatesInspected, CreationIsFirst, DistinctIds, IndexOf, StateEvents;
    }
  }

  lemma StateBeforeFault(a: Authority, checkedAt: Timestamp, m: Machine, f: AuditEvent, e: AuditEvent)
    requires Inspects(a, checkedAt) && WellShaped(m) && m == Machine(a.deployment, a.evidence, a.exactState, a.events, m.shape)
    requires f in a.events && f.eventType == FaultPaused && e in a.events && e.eventType == StateAdvanced
    ensures IndexOf(a.events, e) < IndexOf(a.events, f)
  {
    hide Inspects, WellShaped, OfType, IndexOf, EventKey, KeyLess, IsCausal;
    LastStateBeforeFault(a, checkedAt, m, f);
    LogParts(m, f);
    var log, states := a.events, OfType(a.events, StateAdvanced);
    OfTypeMembers(log, StateAdvanced, e);
    OfTypeSorted(log, StateAdvanced);
    var i :| 0 <= i < |states| && states[i] == e;
    var last := states[|states| - 1];
    OfTypeMembers(log, StateAdvanced, last);
    IndexOrder(log, e, last);
    if i < |states| - 1 { SortedPair(states, i, |states| - 1); }
  }

  lemma LastStateBeforeFault(a: Authority, checkedAt: Timestamp, m: Machine, f: AuditEvent)
    requires Inspects(a, checkedAt) && WellShaped(m) && m == Machine(a.deployment, a.evidence, a.exactState, a.events, m.shape)
    requires f in a.events && f.eventType == FaultPaused
    ensures PrecedesAllState(a.events, f)
  {
    LogParts(m, f);
    ExpectedOfShaped(m);
    ExpectedHeads(m);
    hide WellShaped, ReplayInspected, RowsAccepted, StatesInspected, StartInspected, CreationIsFirst, OfType, IndexOf, IsCausal, PrecedesAllState, RecordAt,
      FaultPayloadAccepted, CompletionInspected, DeploymentValid, ActivationInspected;
  }

  lemma InspectedInOrder(a: Authority, checkedAt: Timestamp, m: Machine)
    requires Inspects(a, checkedAt) && WellShaped(m) && m == Machine(a.deployment, a.evidence, a.exactState, a.events, m.shape)
    ensures InOrder(a.deployment, a.evidence, a.events)
  {
    hide WellShaped, Inspects, RecordAt, OfType;
    forall f | f in a.events && f.eventType == FaultPaused ensures f == a.events[|a.events| - 1] { FaultIsLast(a, checkedAt, m, f); }
    InspectedInstants(a, checkedAt);
    InspectedActivation(a, checkedAt);
  }

  lemma InspectedActivation(a: Authority, checkedAt: Timestamp)
    requires Inspects(a, checkedAt)
    ensures a.deployment.activationAt.Some? ==> a.deployment.createdAt.epochNs < a.deployment.activationAt.value.epochNs
  {
    hide ReplayInspected, RowsAccepted, StatesInspected, StartInspected, CreationIsFirst, OfType, IndexOf, PhaseInspected, RecordAt;
  }

  /**
   What is accepted at start-up, the inspector passes exactly when the activation is strictly later than the
   creation, every record strictly later than the activation, and a fault the last event of the log.
   With `InspectedIsAcceptedIff` that compares the two validators on all inputs.
   */
  lemma AcceptedIsInspectedIff(a: Authority, c: Context)
    requires Accepts(a, c)
    ensures Inspects(a, c.now) <==>
              && (a.deployment.activationAt.Some? ==> a.deployment.createdAt.epochNs < a.deployment.activationAt.value.epochNs)
              && (a.deployment.activationAt.Some? ==> forall i :: 0 <= i < |a.evidence| ==> RecordAt(a.evidence[i]) > a.deployment.activationAt.value.epochNs)
              && (forall f :: f in a.events && f.eventType == FaultPaused ==> f == a.events[|a.events| - 1])
  {
    hide Accepts, WellShaped, Inspects, RecordAt;
    var shape := ShapedOfAccepts(a, c);
    var m := Machine(a.deployment, a.evidence, a.exactState, a.events, shape);
    if Inspects(a, c.now) { InspectedInOrder(a, c.now, m); }
    if InOrder(a.deployment, a.evidence, a.events) { InspectsOfShaped(a, c, m); }
  }

  lemma InspectsOfShaped(a: Authority, c: Context, m: Machine)
    requires Accepts(a, c) && WellShaped(m) && InOrder(m.deployment, m.evidence, m.log)
    requires m == Machine(a.deployment, a.evidence, a.exactState, a.events, m.shape)
    ensures Inspects(a, c.now)
  {
    hide WellShaped, InOrder, ReplayInspected, RowsAccepted, LifecycleInspected, Readable, NothingLater, LeftByRun, EvidenceAccepted, EventsAccepted, Routable, Project,
      CreationAccepted, LifecycleAccepted;
    AcceptsIffAdmissible(a, c);
    LifecycleInspectedOfShaped(m);
    RowsOfShaped(m, c.now);
    ReplayInspectedOfShaped(m);
  }
}
