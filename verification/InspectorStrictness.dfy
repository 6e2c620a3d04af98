/**
 The inspector is at least as strict as the start-up validator, but for three conditions: what it
 accepts was left by a run exactly when they hold.
 */
module InspectorStrictness {
  import opened Basics
  import opened ExactDecimals
  import opened DecimalText
  import opened KeyOrder
  import opened CandidateReplay
  import opened PilotAudit
  import opened PilotMachine
  import opened PilotReachability
  import opened StartupValidator
  import opened StartupLogs
  import opened StartupTheorem
  import LedgerLaws
  import opened RoutableStates
  import opened StartupMain
  import opened ReadinessInspector

  // ---------------------------------------------------------------------------------------------
  // Counting a prefix of the log is cutting it at a position
  // ---------------------------------------------------------------------------------------------

  lemma {:induction false} OfTypeConcat(a: seq<AuditEvent>, b: seq<AuditEvent>, t: EventType)
    ensures OfType(a + b, t) == OfType(a, t) + OfType(b, t)
  {
    if a == [] {
      assert a + b == b;
    } else {
      assert (a + b)[1..] == a[1..] + b;
      OfTypeConcat(a[1..], b, t);
    }
  }

  lemma PrefixCountIsCut(log: seq<AuditEvent>, mark: AuditEvent)
    requires StrictlySorted(log, EventKey) && mark in log
    ensures StateEventsBefore(log, mark) == PrecedingCount(log, OfType(log, StateAdvanced), mark)
  {
    hide KeyLess, EventKey, OfType, PrecedingCount, IndexOf;
    var k := IndexOf(log, mark);
    IndexOfFound(log, mark);
    var all, n := OfType(log, StateAdvanced), StateEventsBefore(log, mark);
    var count := PrecedingCount(log, all, mark);
    assert log == log[..k] + log[k..];
    OfTypeConcat(log[..k], log[k..], StateAdvanced);
    OfTypeSorted(log, StateAdvanced);
    forall e | e in all ensures e in log { OfTypeMembers(log, StateAdvanced, e); }
    if n < count {
      PrecedingCut(log, all, mark, n);
      AfterMark(log, k, all[n], OfType(log[k..], StateAdvanced)[0]);
    } else if count < n {
      PrecedingCut(log, all, mark, count);
      BeforeMark(log, k, all[count], OfType(log[..k], StateAdvanced)[count]);
    }
  }

  lemma AfterMark(log: seq<AuditEvent>, k: nat, e: AuditEvent, same: AuditEvent)
    requires StrictlySorted(log, EventKey) && k < |log| && same == e && e in OfType(log[k..], StateAdvanced)
    ensures !KeyLess(EventKey(e), EventKey(log[k]))
  {
    hide KeyLess, EventKey, OfType;
    OfTypeMembers(log[k..], StateAdvanced, e);
    var j :| 0 <= j < |log[k..]| && log[k..][j] == e;
    KeyTotal(EventKey(log[k]), EventKey(e));
  }

  lemma BeforeMark(log: seq<AuditEvent>, k: nat, e: AuditEvent, same: AuditEvent)
    requires StrictlySorted(log, EventKey) && k < |log| && same == e && e in OfType(log[..k], StateAdvanced)
    ensures KeyLess(EventKey(e), EventKey(log[k]))
  {
    hide KeyLess, EventKey, OfType;
    OfTypeMembers(log[..k], StateAdvanced, e);
  }

  // ---------------------------------------------------------------------------------------------
  // The machine that an inspected log describes
  // ---------------------------------------------------------------------------------------------

  function InspectedEnding(log: seq<AuditEvent>): Ending {
    var faults, completions := OfType(log, FaultPaused), OfType(log, RollbackCompleted);
    if |faults| == 1 then Faulted(faults[0])
    else if |completions| == 1 && completions[0].fromPhase.Some? then Completed(completions[0].fromPhase.value)
    else Open
  }

  function InspectedMachine(a: Authority): Machine {
    var rollback := OnlyRollback(a.events);
    Machine(a.deployment, a.evidence, a.exactState, a.events,
      Shape(if rollback.Some? then Some(rollback.value.createdAt) else None,
            if rollback.Some? then RollbackBoundary(a.events, a.evidence) else |a.evidence|,
            InspectedEnding(a.events)))
  }

  /** The selections by type that the inspector has checked, as canonical events. */
  lemma InspectedEvents(a: Authority, checkedAt: Timestamp)
    requires Inspects(a, checkedAt)
    ensures StrictlySorted(a.events, EventKey) && DistinctIds(a.events)
    ensures forall e :: e in a.events ==> e.deploymentId == a.deployment.id && e.stateVersion <= a.exactState.stateVersion
    ensures forall t, e :: e in OfType(a.events, t) ==> e.eventType == t && e.deploymentId == a.deployment.id
  {
    hide LifecycleInspected, ReplayInspected, DeploymentValid, OfType, KeyLess, EventKey, PayloadIsObject;
    ScanSuffices(a.events, EventKey);
    assert forall i :: 0 <= i < |a.events| ==> RowAccepted(a.events[i], a.deployment, a.exactState, checkedAt);
    forall t, e | e in OfType(a.events, t) ensures e.eventType == t && e.deploymentId == a.deployment.id {
      OfTypeMembers(a.events, t, e);
    }
  }

  lemma InspectedBoundary(a: Authority, checkedAt: Timestamp)
    requires Inspects(a, checkedAt)
    ensures OnlyRollback(a.events).Some? ==> StateEventsBefore(a.events, OnlyRollback(a.events).value) == RollbackBoundary(a.events, a.evidence)
  {
    InspectedEvents(a, checkedAt);
    hide OfType, PrecedingCount, Inspects, StrictlySorted, IndexOf, StateEventsBefore, DistinctIds;
    var rollbacks := OfType(a.events, RollbackStarted);
    if |rollbacks| == 1 {
      OfTypeMembers(a.events, RollbackStarted, rollbacks[0]);
      PrefixCountIsCut(a.events, rollbacks[0]);
    }
  }

  /** What the inspector's boundary is. */
  function InspectedBoundaryOf(log: seq<AuditEvent>): Option<nat> {
    if OnlyRollback(log).Some? then Some(StateEventsBefore(log, OnlyRollback(log).value)) else None
  }

  lemma InspectedStateRaw(a: Authority, checkedAt: Timestamp, i: nat)
    requires Inspects(a, checkedAt) && i < |a.evidence|
    ensures |OfType(a.events, StateAdvanced)| == |a.evidence| == a.exactState.stateVersion
    ensures StateInspected(a.deployment, a.evidence[i], OfType(a.events, StateAdvanced)[i], i, PhaseAt(InspectedBoundaryOf(a.events), i))
  {
    hide OfType, ReplayInspected, DeploymentValid, RowsAccepted, CreationIsFirst, ActivationInspected, StartInspected, PhaseInspected, StateInspected,
      IndexOf, StateEventsBefore, OnlyRollback;
  }

  lemma InspectedState(a: Authority, checkedAt: Timestamp, i: nat)
    requires Inspects(a, checkedAt) && i < |a.evidence|
    ensures |OfType(a.events, StateAdvanced)| == |a.evidence|
    ensures OfType(a.events, StateAdvanced)[i] == StateEvents(InspectedMachine(a))[i]
    ensures i >= InspectedMachine(a).shape.boundary ==> IsSell(a.evidence[i].evidence.action)
  {
    hide OfType, RollbackBoundary, Inspects, EvidenceEventId, StrictlySorted, IsSell, StateEventsBefore, DistinctIds, InspectedEnding, OnlyRollback,
      RecordAt;
    InspectedEvents(a, checkedAt);
    InspectedBoundary(a, checkedAt);
    InspectedStateRaw(a, checkedAt, i);
    var stateEvents := OfType(a.events, StateAdvanced);
    assert stateEvents[i] in stateEvents;
  }

  lemma InspectedStates(a: Authority, checkedAt: Timestamp)
    requires Inspects(a, checkedAt)
    ensures OfType(a.events, StateAdvanced) == StateEvents(InspectedMachine(a))
    ensures OnlyRollback(a.events).Some? ==> StateEventsBefore(a.events, OnlyRollback(a.events).value) == RollbackBoundary(a.events, a.evidence)
    ensures forall i :: InspectedMachine(a).shape.boundary <= i < |a.evidence| ==> IsSell(a.evidence[i].evidence.action)
  {
    InspectedBoundary(a, checkedAt);
    InspectedEvidence(a, checkedAt);
    hide OfType, Inspects, IsSell, StateEventsBefore, OnlyRollback, AdvancedEvent, EvidenceOk;
    var m, stateEvents := InspectedMachine(a), OfType(a.events, StateAdvanced);
    forall i | 0 <= i < |a.evidence|
      ensures |stateEvents| == |a.evidence| && stateEvents[i] == StateEvents(m)[i] && (i >= m.shape.boundary ==> IsSell(a.evidence[i].evidence.action))
    {
      InspectedState(a, checkedAt, i);
    }
  }

  lemma InspectedStart(a: Authority, checkedAt: Timestamp)
    requires Inspects(a, checkedAt) && OnlyRollback(a.events).Some?
    ensures var s := OnlyRollback(a.events).value;
            && OfType(a.events, RollbackStarted) == [s]
            && s == StartedEvent(a.deployment, s.createdAt, RollbackBoundary(a.events, a.evidence))
            && a.deployment.activationAt.Some? && s.createdAt.epochNs >= a.deployment.activationAt.value.epochNs
  {
    InspectedEvents(a, checkedAt);
    InspectedStates(a, checkedAt);
    hide OfType, PrecedingCount, ReplayInspected, DeploymentValid, RowsAccepted, CreationIsFirst, ActivationInspected, StatesInspected, PhaseInspected,
      StartedId, StrictlySorted, IndexOf, RecordAt, StateEventsBefore, DistinctIds;
    var s := OnlyRollback(a.events).value;
    assert s in OfType(a.events, RollbackStarted);
  }

  lemma InspectedInstants(a: Authority, checkedAt: Timestamp)
    requires Inspects(a, checkedAt)
    ensures a.exactState.stateVersion == |a.evidence| == |OfType(a.events, StateAdvanced)|
    ensures a.evidence != [] ==> a.deployment.activationAt.Some?
    ensures forall i :: 0 <= i < |a.evidence| ==> RecordAt(a.evidence[i]) > a.deployment.activationAt.value.epochNs
  {
    hide OfType, PrecedingCount, RowsAccepted, CreationIsFirst, PhaseInspected, StartInspected, IndexOf, StateEventsBefore, ReplayInspected,
      EvidenceEventId, RecordAt, IsSell, ActivationEvent, ActivationInspected;
    forall i | 0 <= i < |a.evidence|
      ensures a.deployment.activationAt.Some? && RecordAt(a.evidence[i]) > a.deployment.activationAt.value.epochNs
    {
      InspectedStateRaw(a, checkedAt, i);
    }
    if a.evidence != [] { InspectedStateRaw(a, checkedAt, 0); }
  }

  lemma InspectedEvidence(a: Authority, checkedAt: Timestamp)
    requires Inspects(a, checkedAt)
    ensures EvidenceOk(InspectedMachine(a)) && a.exactState.stateVersion == |a.evidence| == |OfType(a.events, StateAdvanced)|
  {
    hide LifecycleInspected, RowsAccepted, StrictlySorted, RecordValid, IsFill, Replay, Project, OfType;
    InspectedInstants(a, checkedAt);
    ProjectSorted(a.evidence);
    VersionIsFillCount(a.evidence, a.exactState);
  }

  lemma InspectedRollback(a: Authority, checkedAt: Timestamp)
    requires Inspects(a, checkedAt)
    ensures RollbackOk(InspectedMachine(a))
  {
    hide Inspects, OfType, StrictlySorted, RecordValid, IsFill, Replay, StartedEvent, StateEvents, RollbackBoundary, IsSell, RecordAt;
    InspectedStates(a, checkedAt);
    InspectedEvents(a, checkedAt);
    InspectedEvidence(a, checkedAt);
    if OnlyRollback(a.events).Some? {
      InspectedStart(a, checkedAt);
      BoundaryIsCut(InspectedMachine(a), OnlyRollback(a.events).value);
    }
  }

  // ---------------------------------------------------------------------------------------------
  // The three conditions
  // ---------------------------------------------------------------------------------------------

  /** What the start-up validator asks beyond the inspector. */
  predicate BeyondInspection(a: Authority) {
    && (a.deployment.activationAt.Some? ==> a.deployment.activationAt.value.epochNs <= a.deployment.updatedAt.epochNs)
    && (forall f, s :: f in OfType(a.events, FaultPaused) && s in OfType(a.events, RollbackStarted) ==>
          s.createdAt.epochNs < f.createdAt.epochNs)
    && (forall f :: f in OfType(a.events, FaultPaused) ==> NonBlank(f.id))
  }

  lemma InspectedFaultIs(a: Authority, checkedAt: Timestamp)
    requires Inspects(a, checkedAt) && a.deployment.phase.PausedFault?
    ensures |OfType(a.events, FaultPaused)| == 1
    ensures var f, rollback := OfType(a.events, FaultPaused)[0], OnlyRollback(a.events);
            && f == FaultEvent(a.deployment, f.id, a.deployment.updatedAt,
                      if rollback.Some? then Draining else if a.deployment.activationAt.None? then PendingFlat else Active,
                      a.exactState.stateVersion, f.payload)
            && FaultPayloadAccepted(f.payload)
            && NotBeforeEvidence(a.evidence, f.createdAt)
            && (rollback.Some? ==> AfterEvidence(a.evidence, f.createdAt))
    ensures a.deployment.createdAt.epochNs <= a.deployment.updatedAt.epochNs
  {
    InspectedEvents(a, checkedAt);
    hide RowsAccepted, ReplayInspected, CreationIsFirst, ActivationInspected, StatesInspected, StartInspected, OfType, IndexOf, NonBlank,
      FaultPayloadAccepted, StrictlySorted, RecordAt, PrecedesAllState, OnlyRollback, CompletionInspected, DistinctIds;
    assert OfType(a.events, FaultPaused)[0] in OfType(a.events, FaultPaused);
  }

  lemma InspectedFault(a: Authority, checkedAt: Timestamp)
    requires Inspects(a, checkedAt) && a.deployment.phase.PausedFault? && BeyondInspection(a)
    ensures EndingOk(InspectedMachine(a)) && InspectedMachine(a).shape.ending.Faulted?
  {
    hide Inspects, OfType, NonBlank, FaultPayloadAccepted, RollbackBoundary, EvidenceOk, NotBeforeEvidence, AfterEvidence, FaultEvent, StartedEvent;
    InspectedFaultIs(a, checkedAt);
    InspectedEvidence(a, checkedAt);
    assert OfType(a.events, FaultPaused)[0] in OfType(a.events, FaultPaused);
    if OnlyRollback(a.events).Some? {
      InspectedStart(a, checkedAt);
      assert OnlyRollback(a.events).value in OfType(a.events, RollbackStarted);
    }
    FaultFields(a.deployment, OfType(a.events, FaultPaused)[0]);
  }

  lemma FaultFields(d: Deployment, f: AuditEvent)
    ensures forall id, at, from, version, payload :: f == FaultEvent(d, id, at, from, version, payload) ==>
              f.id == id && f.createdAt == at && f.payload == payload
  {
  }

  lemma InspectedOpen(a: Authority, checkedAt: Timestamp)
    requires Inspects(a, checkedAt) && !a.deployment.phase.PausedFault? && !a.deployment.phase.Disabled?
    ensures EndingOk(InspectedMachine(a)) && InspectedMachine(a).shape.ending.Open?
  {
    hide RowsAccepted, ReplayInspected, CreationIsFirst, StatesInspected, StartInspected, OfType, IndexOf, NonBlank, RollbackBoundary, ActivationEvent;
  }

  /** The completion sorts after the last record. */
  lemma CompletionAfterRecords(a: Authority, checkedAt: Timestamp, c: AuditEvent)
    requires Inspects(a, checkedAt) && c in a.events && PrecedesAllState(a.events, c)
    ensures NotBeforeEvidence(a.evidence, c.createdAt)
  {
    hide Inspects, OfType, IndexOf, StrictlySorted, RollbackBoundary, EvidenceEventId, LexLess;
    InspectedEvents(a, checkedAt);
    InspectedStates(a, checkedAt);
    if a.evidence != [] {
      var last := OfType(a.events, StateAdvanced)[|a.evidence| - 1];
      OfTypeMembers(a.events, StateAdvanced, last);
      IndexOrder(a.events, last, c);
    }
  }

  /** At one instant the completion sorts before the rollback start, so standing after it means later. */
  lemma CompletionAfterStart(a: Authority, checkedAt: Timestamp, c: AuditEvent)
    requires Inspects(a, checkedAt) && c in a.events && c.id == CompletedId(a.deployment.id, c.createdAt.epochNs)
    requires OnlyRollback(a.events).Some? && IndexOf(a.events, OnlyRollback(a.events).value) < IndexOf(a.events, c)
    ensures OnlyRollback(a.events).value.createdAt.epochNs < c.createdAt.epochNs
  {
    hide Inspects, OfType, IndexOf, StrictlySorted, RollbackBoundary, LexLess;
    InspectedEvents(a, checkedAt);
    InspectedStart(a, checkedAt);
    var s := OnlyRollback(a.events).value;
    OfTypeMembers(a.events, RollbackStarted, s);
    IndexOrder(a.events, s, c);
    IdentifierTieBreaks(a.deployment.id, "", 0, s.createdAt.epochNs, c.createdAt.epochNs);
    LexTotal(s.id, c.id);
  }

  lemma InspectedCompletion(a: Authority, checkedAt: Timestamp)
    requires Inspects(a, checkedAt) && a.deployment.phase.Disabled? && BeyondInspection(a)
    ensures EndingOk(InspectedMachine(a)) && InspectedMachine(a).shape.ending.Completed?
  {
    hide RowsAccepted, ReplayInspected, CreationIsFirst, ActivationInspected, StatesInspected, StartInspected, OfType, IndexOf, NonBlank,
      RollbackBoundary, IsRollbackFlat, PrecedesAllState, CompletedId, NotBeforeEvidence, StartedEvent;
    var c := OfType(a.events, RollbackCompleted)[0];
    OfTypeMembers(a.events, RollbackCompleted, c);
    CompletionAfterRecords(a, checkedAt, c);
    if OnlyRollback(a.events).Some? {
      InspectedStart(a, checkedAt);
      CompletionAfterStart(a, checkedAt, c);
    }
  }

  /** The ending events by phase: one fault, one completion, or neither. */
  lemma InspectedEndingCounts(a: Authority, checkedAt: Timestamp)
    requires Inspects(a, checkedAt)
    ensures |OfType(a.events, FaultPaused)| == (if a.deployment.phase.PausedFault? then 1 else 0)
    ensures |OfType(a.events, RollbackCompleted)| == (if a.deployment.phase.Disabled? then 1 else 0)
  {
    hide RowsAccepted, ReplayInspected, StatesInspected, StartInspected, OfType, IndexOf, NonBlank, IsRollbackFlat, PrecedesAllState, CompletedId,
      FaultPayloadAccepted, RecordAt, CreationIsFirst, ActivationInspected, OnlyRollback;
  }

  lemma InspectedCompletionIs(a: Authority, checkedAt: Timestamp)
    requires Inspects(a, checkedAt) && a.deployment.phase.Disabled?
    ensures |OfType(a.events, RollbackCompleted)| == 1
    ensures var c := OfType(a.events, RollbackCompleted)[0];
            c.fromPhase.Some? && c == CompletedEvent(a.deployment, a.deployment.updatedAt, c.fromPhase.value, a.exactState.stateVersion)
  {
    InspectedEvents(a, checkedAt);
    hide RowsAccepted, ReplayInspected, StatesInspected, StartInspected, OfType, IndexOf, NonBlank, IsRollbackFlat, PrecedesAllState, CompletedId,
      FaultInspected, CreationIsFirst, ActivationInspected, OnlyRollback, StrictlySorted, DistinctIds;
    assert OfType(a.events, RollbackCompleted)[0] in OfType(a.events, RollbackCompleted);
  }

  lemma InspectedEndings(a: Authority, checkedAt: Timestamp)
    requires Inspects(a, checkedAt)
    ensures OfType(a.events, FaultPaused) == Expected(InspectedMachine(a), FaultPaused)
    ensures OfType(a.events, RollbackCompleted) == Expected(InspectedMachine(a), RollbackCompleted)
  {
    hide Inspects, OfType, CompletedEvent, EvidenceOk, OnlyRollback, RollbackBoundary;
    InspectedEndingCounts(a, checkedAt);
    InspectedEvidence(a, checkedAt);
    if a.deployment.phase.Disabled? { InspectedCompletionIs(a, checkedAt); }
  }

  lemma InspectedBeginnings(a: Authority, checkedAt: Timestamp)
    requires Inspects(a, checkedAt)
    ensures OfType(a.events, DeploymentCreated) == Expected(InspectedMachine(a), DeploymentCreated)
    ensures OfType(a.events, PhaseTransition) == Expected(InspectedMachine(a), PhaseTransition)
  {
    hide RowsAccepted, ReplayInspected, StatesInspected, StartInspected, OfType, IndexOf, NonBlank, PhaseInspected, CreatedEvent, ActivationEvent,
      OnlyRollback, InspectedEnding, RollbackBoundary;
  }

  lemma InspectedExpected(a: Authority, checkedAt: Timestamp, t: EventType)
    requires Inspects(a, checkedAt)
    ensures OfType(a.events, t) == Expected(InspectedMachine(a), t)
  {
    InspectedStates(a, checkedAt);
    InspectedEndings(a, checkedAt);
    InspectedBeginnings(a, checkedAt);
    AtMostOneRollback(a, checkedAt);
    if OnlyRollback(a.events).Some? { InspectedStart(a, checkedAt); }
    hide Inspects, OfType, StateEvents, StartedEvent, RollbackBoundary, StateEventsBefore, InspectedEnding, IsSell;
  }

  lemma AtMostOneRollback(a: Authority, checkedAt: Timestamp)
    requires Inspects(a, checkedAt)
    ensures |OfType(a.events, RollbackStarted)| <= 1
  {
    hide RowsAccepted, ReplayInspected, StatesInspected, StartInspected, OfType, PhaseInspected, CreationIsFirst, ActivationInspected;
  }

  lemma ShapedOfInspected(a: Authority, checkedAt: Timestamp)
    requires Inspects(a, checkedAt) && BeyondInspection(a)
    ensures WellShaped(InspectedMachine(a))
  {
    var m := InspectedMachine(a);
    InspectedEvents(a, checkedAt);
    InspectedEvidence(a, checkedAt);
    InspectedRollback(a, checkedAt);
    match a.deployment.phase {
      case PausedFault => InspectedFault(a, checkedAt);
      case Disabled => InspectedCompletion(a, checkedAt);
      case _ => InspectedOpen(a, checkedAt);
    }
    InspectedActivation(a, checkedAt);
    forall t ensures OfType(a.events, t) == Expected(m, t) { InspectedExpected(a, checkedAt, t); }
    hide Inspects, InspectedMachine, Expected, OfType, EvidenceOk, RollbackOk, ActivationOk, LogOk, NonBlank, BeyondInspection;
    assert StrictlySorted(m.evidence, RecordKey) && FaultIsFault(m);
    LogOkIffExpected(m);
  }

  lemma InspectedActivation(a: Authority, checkedAt: Timestamp)
    requires Inspects(a, checkedAt)
    ensures ActivationOk(a.deployment) && NonBlank(a.deployment.id) && NonBlank(a.deployment.exchangeAccountId)
  {
    hide RowsAccepted, ReplayInspected, StatesInspected, StartInspected, OfType, NonBlank, PhaseInspected, ActivationEvent, CreationIsFirst;
  }

  lemma BeyondOfShaped(m: Machine, a: Authority)
    requires WellShaped(m) && m == Machine(a.deployment, a.evidence, a.exactState, a.events, m.shape)
    ensures BeyondInspection(a)
  {
    hide OfType, IsCausal, LogOk, Replay, RecordValid, StrictlySorted, NonBlank, EndingOk, RollbackOk, EvidenceOk;
    var e := UpdateInLog(m);
    ExpectedOfShaped(m);
    ExpectedHeads(m);
    if m.shape.ending.Faulted? { FaultOfShaped(m); }
  }

  lemma FaultOfShaped(m: Machine)
    requires WellShaped(m) && m.shape.ending.Faulted?
    ensures NonBlank(m.shape.ending.fault.id)
    ensures m.shape.rollback.Some? ==> m.shape.rollback.value.epochNs < m.shape.ending.fault.createdAt.epochNs
  {
    hide LogOk, Replay, RecordValid, StrictlySorted, NonBlank, RollbackOk, EvidenceOk;
  }

  /**
   What the inspector accepts was left by a run of the machine exactly when the activation is not
   after the last update, a fault after a rollback start is strictly later than it, and the fault's
   identifier is not blank. With `AcceptsIffLeftByRun` that is when the start-up validator accepts the
   life of the deployment too.
   */
  lemma InspectedIsRunIff(a: Authority, checkedAt: Timestamp)
    requires Inspects(a, checkedAt)
    ensures LeftByRun(a) <==> BeyondInspection(a)
  {
    hide Inspects, WellShaped, BeyondInspection, Reachable, InspectedEnding, RollbackBoundary, OnlyRollback;
    if BeyondInspection(a) {
      ShapedOfInspected(a, checkedAt);
      var m := InspectedMachine(a);
      ReachableIffShaped(m);
      assert m == Machine(a.deployment, a.evidence, a.exactState, a.events, m.shape);
    }
    if LeftByRun(a) {
      var shape :| Reachable(Machine(a.deployment, a.evidence, a.exactState, a.events, shape));
      var m := Machine(a.deployment, a.evidence, a.exactState, a.events, shape);
      ReachableIffShaped(m);
      BeyondOfShaped(m, a);
    }
  }

  /**
   With the row at the clock of the start-up, what the inspector accepts is accepted at start-up exactly
   when the three conditions hold, the identity is the configured one, a created deployment is of this
   very start, and an open quantity exceeds the tolerance.
   */
  lemma InspectedIsAcceptedIff(a: Authority, c: Context)
    requires Inspects(a, c.now)
    ensures Accepts(a, c) <==>
              && BeyondInspection(a)
              && a.deployment.id == c.deploymentId && a.deployment.exchangeAccountId == c.exchangeAccountId
              && (LedgerLaws.Amount(a.exactState.inventory) == 0.0 || LedgerLaws.Amount(a.exactState.inventory) > 0.000000000001)
              && (a.outcome == CreatedOutcome ==> a.deployment.phase == PendingFlat && a.deployment.createdAt == a.deployment.updatedAt == c.now)
  {
    hide Inspects, BeyondInspection, LeftByRun, Accepts, LedgerLaws.Amount, Readable;
    InspectedIsRunIff(a, c.now);
    InspectedRows(a, c);
    AcceptsIffAdmissible(a, c);
  }

  lemma InspectedRows(a: Authority, c: Context)
    requires Inspects(a, c.now)
    ensures NothingLater(a.events, c.now)
    ensures Readable(a.exactState) <==> LedgerLaws.Amount(a.exactState.inventory) == 0.0 || LedgerLaws.Amount(a.exactState.inventory) > 0.000000000001
  {
    hide LifecycleInspected, DeploymentValid, IsCanonicalSigned, IsCanonicalNonNegative, Project, RecordValid, StrictlySorted, KeyLess, EventKey,
      LedgerLaws.Amount, LedgerLaws.IsPrinted, Abs;
    var s := a.exactState;
    SignedIsPrinted(s.realizedPnl);
    SignedTextIff(s.realizedPnl);
    if s.lastFullExitPnl.Some? {
      SignedIsPrinted(s.lastFullExitPnl.value);
      SignedTextIff(s.lastFullExitPnl.value);
    }
  }
}
