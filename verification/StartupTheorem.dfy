/** The start-up validator accepts exactly what runs of the machine leave behind. */
module StartupTheorem {
  import opened Basics
  import opened KeyOrder
  import opened CandidateReplay
  import opened PilotAudit
  import opened PilotMachine
  import opened StartupValidator
  import opened StartupLogs
  import LedgerLaws

  // ---------------------------------------------------------------------------------------------
  // Evidence
  // ---------------------------------------------------------------------------------------------

  lemma {:induction false} FillCountFull(history: seq<Evidence>)
    ensures LedgerLaws.FillCount(history) <= |history|
    ensures LedgerLaws.FillCount(history) == |history| <==> forall i :: 0 <= i < |history| ==> IsFill(history[i])
  {
    hide IsFill;
    if history != [] {
      var init, last := history[..|history| - 1], history[|history| - 1];
      FillCountFull(init);
      assert forall i :: 0 <= i < |init| ==> init[i] == history[i];
    }
  }

  /** The state version counts the fills; it reaches the number of records when every record is one. */
  lemma VersionIsFillCount(records: seq<EvidenceRecord>, state: ExactState)
    requires Replay(Items(records)) == Some(state)
    ensures state.stateVersion <= |records|
    ensures state.stateVersion == |records| <==> forall i :: 0 <= i < |records| ==> IsFill(records[i].evidence)
  {
    hide IsFill, Replay;
    LedgerLaws.CashConservation(Items(records), state);
    FillCountFull(Items(records));
    assert forall i :: 0 <= i < |records| ==> Items(records)[i] == records[i].evidence;
  }

  lemma ProjectSorted(records: seq<EvidenceRecord>)
    requires StrictlySorted(records, RecordKey)
    ensures Project(Items(records)) == Replay(Items(records))
  {
    hide Replay, Sort;
    var items := Items(records);
    forall i, j | 0 <= i < j < |items| ensures KeyLess(EvidenceKey(items[i]), EvidenceKey(items[j])) {
      assert KeyLess(RecordKey(records[i]), RecordKey(records[j]));
    }
    SortOfSorted(items, EvidenceKey);
  }

  // ---------------------------------------------------------------------------------------------
  // The rollback boundary
  // ---------------------------------------------------------------------------------------------

  /** Evidence stands before the start of the rollback in the log exactly when it is not later. */
  lemma BeforeStart(d: Deployment, r: EvidenceRecord, index: nat, phase: Phase, at: Timestamp, version: int)
    ensures KeyLess(EventKey(AdvancedEvent(d, r, index, phase)), EventKey(StartedEvent(d, at, version))) <==> RecordAt(r) <= at.epochNs
  {
    IdentifierTieBreaks(d.id, r.evidence.evidenceId, 0, at.epochNs, 0);
    LexTransitive(EvidenceEventId(d.id, r.evidence.evidenceId), CompletedId(d.id, 0), StartedId(d.id, at.epochNs));
  }

  /** The count of state events before the rollback start cuts the evidence by its instant. */
  lemma CountCutsTime(m: Machine, at: Timestamp, version: int, i: nat)
    requires StrictlySorted(m.log, EventKey) && StrictlySorted(m.evidence, RecordKey)
    requires OfType(m.log, StateAdvanced) == StateEvents(m) && StartedEvent(m.deployment, at, version) in m.log
    requires i < |m.evidence|
    ensures i < PrecedingCount(m.log, StateEvents(m), StartedEvent(m.deployment, at, version)) <==> RecordAt(m.evidence[i]) <= at.epochNs
  {
    hide KeyLess, EventKey, AdvancedEvent, StartedEvent, RecordAt;
    StateEventsSorted(m);
    forall e | e in StateEvents(m) ensures e in m.log { OfTypeMembers(m.log, StateAdvanced, e); }
    PrecedingCut(m.log, StateEvents(m), StartedEvent(m.deployment, at, version), i);
    BeforeStart(m.deployment, m.evidence[i], i, RecordPhase(m, i), at, version);
  }

  lemma ShapedBoundary(m: Machine)
    requires EvidenceOk(m) && RollbackOk(m) && StrictlySorted(m.log, EventKey)
    requires forall t :: OfType(m.log, t) == Expected(m, t)
    ensures RollbackBoundary(m.log, m.evidence) == m.shape.boundary
  {
    assert OfType(m.log, RollbackStarted) == Expected(m, RollbackStarted);
    assert OfType(m.log, StateAdvanced) == Expected(m, StateAdvanced);
    hide RecordValid, Replay, IsFill, StrictlySorted, StartedEvent, PrecedingCount, IsSell, RecordAt;
    if m.shape.rollback.Some? {
      var at := m.shape.rollback.value;
      var started := StartedEvent(m.deployment, at, m.shape.boundary);
      OfTypeMembers(m.log, RollbackStarted, started);
      var n := PrecedingCount(m.log, StateEvents(m), started);
      if n < m.shape.boundary { CountCutsTime(m, at, m.shape.boundary, n); }
      if n > m.shape.boundary { CountCutsTime(m, at, m.shape.boundary, m.shape.boundary); }
    }
  }

  // ---------------------------------------------------------------------------------------------
  // From the machine to the validator
  // ---------------------------------------------------------------------------------------------

  lemma ActivationBeforeStart(m: Machine)
    requires ActivationOk(m.deployment) && RollbackOk(m) && m.shape.rollback.Some? && StrictlySorted(m.log, EventKey)
    requires forall t :: OfType(m.log, t) == Expected(m, t)
    ensures m.deployment.activationEpochNs.Some?
    ensures var a, s := ActivationEvent(m.deployment), StartedEvent(m.deployment, m.shape.rollback.value, m.shape.boundary);
            OfType(m.log, PhaseTransition) == [a] && OfType(m.log, RollbackStarted) == [s] && IndexOf(m.log, a) < IndexOf(m.log, s)
  {
    hide StateEvents, IndexOf, StrictlySorted;
    var d, at := m.deployment, m.shape.rollback.value;
    var a, s := ActivationEvent(d), StartedEvent(d, at, m.shape.boundary);
    assert OfType(m.log, PhaseTransition) == Expected(m, PhaseTransition);
    assert OfType(m.log, RollbackStarted) == Expected(m, RollbackStarted);
    OfTypeMembers(m.log, PhaseTransition, a);
    OfTypeMembers(m.log, RollbackStarted, s);
    IdentifierTieBreaks(d.id, "", d.activationEpochNs.value, at.epochNs, 0);
    IndexOrder(m.log, a, s);
  }

  lemma StartBeforeFault(m: Machine)
    requires EndingOk(m) && m.shape.ending.Faulted? && m.shape.rollback.Some? && StrictlySorted(m.log, EventKey)
    requires forall t :: OfType(m.log, t) == Expected(m, t)
    ensures var s := StartedEvent(m.deployment, m.shape.rollback.value, m.shape.boundary);
            IndexOf(m.log, s) < IndexOf(m.log, m.shape.ending.fault)
  {
    hide StateEvents, IndexOf, StrictlySorted;
    var s, f := StartedEvent(m.deployment, m.shape.rollback.value, m.shape.boundary), m.shape.ending.fault;
    assert OfType(m.log, RollbackStarted) == Expected(m, RollbackStarted);
    assert OfType(m.log, FaultPaused) == Expected(m, FaultPaused);
    OfTypeMembers(m.log, RollbackStarted, s);
    OfTypeMembers(m.log, FaultPaused, f);
    IndexOrder(m.log, s, f);
  }

  lemma StartAcceptedOfShaped(m: Machine)
    requires ActivationOk(m.deployment) && RollbackOk(m) && EndingOk(m) && m.shape.rollback.Some? && StrictlySorted(m.log, EventKey)
    requires !m.shape.ending.Completed?
    requires forall t :: OfType(m.log, t) == Expected(m, t)
    ensures StartAccepted(m.deployment, m.evidence, m.log, StartedEvent(m.deployment, m.shape.rollback.value, m.shape.boundary),
              if m.shape.ending.Faulted? then Some(m.shape.ending.fault) else None, m.shape.boundary)
  {
    ActivationBeforeStart(m);
    if m.shape.ending.Faulted? { StartBeforeFault(m); }
    hide IndexOf, StateEvents, OfType, StrictlySorted, StartedId, ActivationId, FaultPayloadAccepted, NonBlank;
  }

  lemma VersionOfShaped(m: Machine)
    requires EvidenceOk(m)
    ensures m.state.stateVersion == |m.evidence|
  {
    hide RecordValid, StrictlySorted, Replay, IsFill;
    VersionIsFillCount(m.evidence, m.state);
  }

  lemma PhaseAcceptedOfShaped(m: Machine)
    requires ActivationOk(m.deployment) && EvidenceOk(m) && RollbackOk(m) && EndingOk(m) && StrictlySorted(m.log, EventKey)
    requires !m.deployment.phase.PendingFlat? && !m.shape.ending.Completed?
    requires forall t :: OfType(m.log, t) == Expected(m, t)
    ensures PhaseAccepted(m.deployment, m.state, m.evidence, m.log, m.shape.boundary)
  {
    hide StartAccepted, StateEvents, OfType, StrictlySorted, FaultPayloadAccepted, NonBlank, EvidenceOk, StartedEvent, ActivationEvent, RecordAt,
      StartedId, IsSell;
    VersionOfShaped(m);
    ExpectedHeads(m);
    if m.shape.rollback.Some? { StartAcceptedOfShaped(m); }
  }

  lemma StateEventsOfShaped(m: Machine)
    requires RollbackOk(m)
    ensures StateEventsAccepted(m.deployment, m.evidence, StateEvents(m), m.shape.boundary)
  {
    hide EvidenceEventId;
  }

  lemma RetainedOfShaped(m: Machine)
    requires WellShaped(m) && !m.deployment.phase.PendingFlat? && !m.shape.ending.Completed?
    ensures Retained(m.deployment, m.state, m.evidence, m.log)
  {
    assert FaultIsFault(m);
    LogOkIffExpected(m);
    ShapedBoundary(m);
    PhaseAcceptedOfShaped(m);
    StateEventsOfShaped(m);
    OfTypeCount(m.log);
    assert forall t :: OfType(m.log, t) == Expected(m, t);
    ExpectedHeads(m);
    hide PhaseAccepted, StateEventsAccepted, RollbackBoundary, LogOk, OfType, StrictlySorted, Replay, RecordValid, IsFill, CreatedEvent, NonBlank,
      StartedId, ActivationId;
  }

  lemma ExpectedHeads(m: Machine)
    requires forall t :: OfType(m.log, t) == Expected(m, t)
    ensures OfType(m.log, DeploymentCreated) == Expected(m, DeploymentCreated)
    ensures OfType(m.log, PhaseTransition) == Expected(m, PhaseTransition)
    ensures OfType(m.log, StateAdvanced) == Expected(m, StateAdvanced)
    ensures OfType(m.log, RollbackStarted) == Expected(m, RollbackStarted)
    ensures OfType(m.log, FaultPaused) == Expected(m, FaultPaused)
    ensures OfType(m.log, RollbackCompleted) == Expected(m, RollbackCompleted)
  {
    hide Expected, OfType;
  }

  // ---------------------------------------------------------------------------------------------
  // From the validator to the machine
  // ---------------------------------------------------------------------------------------------

  /** What the checks before assertRetainedLifecycleAuthority have established. */
  ghost predicate Base(d: Deployment, state: ExactState, evidence: seq<EvidenceRecord>, log: seq<AuditEvent>) {
    && NonBlank(d.id) && NonBlank(d.exchangeAccountId)
    && ActivationOk(d)
    && BaseEvidence(d, state, evidence)
    && StrictlySorted(log, EventKey) && DistinctIds(log)
    && (forall e :: e in log ==> e.deploymentId == d.id && NonBlank(e.id) && e.stateVersion <= state.stateVersion)
    && CreationAccepted(d, log)
    && (d.phase.Active? || d.phase.Draining? ==> d.activationAt.Some?)
    && (d.phase.PausedFault? ==>
          d.createdAt.epochNs <= d.updatedAt.epochNs
          && (d.activationAt.Some? ==> d.activationAt.value.epochNs <= d.updatedAt.epochNs))
  }

  ghost predicate BaseEvidence(d: Deployment, state: ExactState, evidence: seq<EvidenceRecord>) {
    && StrictlySorted(evidence, RecordKey)
    && (evidence != [] ==> d.activationAt.Some?)
    && (forall i :: 0 <= i < |evidence| ==>
          RecordValid(evidence[i], d.id) && RecordAt(evidence[i]) >= d.activationAt.value.epochNs)
    && Replay(Items(evidence)) == Some(state)
  }

  function ShapeOf(evidence: seq<EvidenceRecord>, log: seq<AuditEvent>): Shape {
    var rollbacks, faults := OfType(log, RollbackStarted), OfType(log, FaultPaused);
    Shape(if |rollbacks| == 1 then Some(rollbacks[0].createdAt) else None,
          RollbackBoundary(log, evidence),
          if |faults| == 1 then Faulted(faults[0]) else Open)
  }

  function MachineOf(d: Deployment, state: ExactState, evidence: seq<EvidenceRecord>, log: seq<AuditEvent>): Machine {
    Machine(d, evidence, state, log, ShapeOf(evidence, log))
  }

  lemma RetainedStateEvents(d: Deployment, state: ExactState, evidence: seq<EvidenceRecord>, log: seq<AuditEvent>)
    requires StateEventsAccepted(d, evidence, OfType(log, StateAdvanced), RollbackBoundary(log, evidence))
    ensures OfType(log, StateAdvanced) == StateEvents(MachineOf(d, state, evidence, log))
  {
    hide OfType, PrecedingCount, EvidenceEventId;
  }

  /** Each record is a fill: the last state event's version is bounded by the number of fills. */
  lemma RetainedAllFilled(d: Deployment, state: ExactState, evidence: seq<EvidenceRecord>, log: seq<AuditEvent>)
    requires BaseEvidence(d, state, evidence)
    requires forall e :: e in log ==> e.stateVersion <= state.stateVersion
    requires OfType(log, StateAdvanced) == StateEvents(MachineOf(d, state, evidence, log))
    ensures EvidenceOk(MachineOf(d, state, evidence, log)) && state.stateVersion == |evidence|
  {
    hide RecordValid, StrictlySorted, IsFill, Replay;
    VersionIsFillCount(evidence, state);
    if evidence != [] {
      var last := OfType(log, StateAdvanced)[|evidence| - 1];
      OfTypeMembers(log, StateAdvanced, last);
    }
  }

  lemma StateEventsCount(m: Machine)
    ensures |StateEvents(m)| == |m.evidence|
  {
    hide AdvancedEvent;
  }

  /** The boundary that the log states cuts the evidence at the instant of the rollback start. */
  lemma BoundaryIsCut(m: Machine, s: AuditEvent)
    requires StrictlySorted(m.log, EventKey) && StrictlySorted(m.evidence, RecordKey)
    requires OfType(m.log, StateAdvanced) == StateEvents(m) && OfType(m.log, RollbackStarted) == [s]
    requires m.shape.boundary == RollbackBoundary(m.log, m.evidence)
    requires s == StartedEvent(m.deployment, s.createdAt, m.shape.boundary)
    ensures m.shape.boundary <= |m.evidence|
    ensures forall i :: 0 <= i < |m.evidence| ==> (i < m.shape.boundary <==> RecordAt(m.evidence[i]) <= s.createdAt.epochNs)
  {
    hide StateEvents, OfType, StrictlySorted, StartedEvent, PrecedingCount, RecordAt;
    StateEventsCount(m);
    assert RollbackBoundary(m.log, m.evidence) == PrecedingCount(m.log, StateEvents(m), s);
    OfTypeMembers(m.log, RollbackStarted, s);
    forall i | 0 <= i < |m.evidence| ensures i < m.shape.boundary <==> RecordAt(m.evidence[i]) <= s.createdAt.epochNs {
      CountCutsTime(m, s.createdAt, m.shape.boundary, i);
    }
  }

  lemma RetainedRollback(d: Deployment, state: ExactState, evidence: seq<EvidenceRecord>, log: seq<AuditEvent>)
    requires Base(d, state, evidence, log) && Retained(d, state, evidence, log)
    ensures RollbackOk(MachineOf(d, state, evidence, log))
  {
    hide RecordValid, Replay, NonBlank, PhaseAccepted, OfType, PrecedingCount, CreationAccepted, ActivationAccepted, StartedEvent, StrictlySorted,
      AdvancedEvent, RecordAt, IsSell, DistinctIds;
    var m := MachineOf(d, state, evidence, log);
    RetainedStateEvents(d, state, evidence, log);
    if |OfType(log, RollbackStarted)| == 1 {
      RetainedStartIs(d, state, evidence, log);
      var s := OfType(log, RollbackStarted)[0];
      assert OfType(log, RollbackStarted) == [s];
      BoundaryIsCut(m, s);
    }
  }

  /** One rollback event: its checks hold, so it is the canonical one. */
  lemma RetainedStartIs(d: Deployment, state: ExactState, evidence: seq<EvidenceRecord>, log: seq<AuditEvent>)
    requires Retained(d, state, evidence, log) && |OfType(log, RollbackStarted)| == 1
    ensures var s, boundary := OfType(log, RollbackStarted)[0], RollbackBoundary(log, evidence);
            && s == StartedEvent(d, s.createdAt, boundary)
            && d.activationAt.Some? && s.createdAt.epochNs >= d.activationAt.value.epochNs
            && (d.phase.Draining? || d.phase.PausedFault?)
            && (d.phase.Draining? ==> d.updatedAt == s.createdAt)
            && (d.phase.PausedFault? ==>
                  (|OfType(log, FaultPaused)| == 1 && s.createdAt.epochNs < OfType(log, FaultPaused)[0].createdAt.epochNs
                   && (boundary < |evidence| ==> RecordAt(evidence[|evidence| - 1]) < OfType(log, FaultPaused)[0].createdAt.epochNs)))
  {
    hide FaultAccepted, OfType, PrecedingCount, CreationAccepted, ActivationAccepted, IndexOf, StateEventsAccepted, StartedId, RecordAt;
  }

  /** One fault event: its checks hold, so it is the canonical one. */
  lemma RetainedFaultIs(d: Deployment, state: ExactState, evidence: seq<EvidenceRecord>, log: seq<AuditEvent>)
    requires Retained(d, state, evidence, log) && d.phase.PausedFault?
    requires forall e :: e in log ==> e.deploymentId == d.id && NonBlank(e.id)
    requires state.stateVersion == |evidence|
    ensures |OfType(log, FaultPaused)| == 1 && |OfType(log, RollbackStarted)| <= 1
    ensures var f := OfType(log, FaultPaused)[0];
            && f == FaultEvent(d, f.id, d.updatedAt,
                      if OfType(log, RollbackStarted) != [] then Draining else if d.activationAt.None? then PendingFlat else Active, |evidence|, f.payload)
            && FaultPayloadAccepted(f.payload) && NonBlank(f.id)
            && NotBeforeEvidence(evidence, f.createdAt)
  {
    hide OfType, PrecedingCount, ActivationAccepted, IndexOf, StateEventsAccepted, StartAccepted, NonBlank, FaultPayloadAccepted, RecordAt;
    OfTypeMembers(log, FaultPaused, OfType(log, FaultPaused)[0]);
  }

  lemma RetainedOpenIs(d: Deployment, state: ExactState, evidence: seq<EvidenceRecord>, log: seq<AuditEvent>)
    requires Retained(d, state, evidence, log) && !d.phase.PausedFault?
    ensures d.phase.Active? || d.phase.Draining?
    ensures OfType(log, FaultPaused) == []
    ensures d.phase.Active? ==> OfType(log, RollbackStarted) == [] && (d.activationAt.Some? && d.activationEpochNs.Some? ==> d.updatedAt == d.activationAt.value)
    ensures d.phase.Draining? ==> |OfType(log, RollbackStarted)| == 1
  {
    hide OfType, PrecedingCount, IndexOf, StateEventsAccepted, StartAccepted, FaultAccepted, ActivationEvent;
  }

  /** After a rollback start the fault is later than all evidence, drained or not. */
  lemma FaultAfterEvidence(m: Machine, at: Timestamp)
    requires RollbackOk(m) && m.shape.rollback.Some? && at.epochNs > m.shape.rollback.value.epochNs
    requires m.shape.boundary < |m.evidence| ==> RecordAt(m.evidence[|m.evidence| - 1]) < at.epochNs
    ensures AfterEvidence(m.evidence, at)
  {
  }

  lemma RetainedEnding(d: Deployment, state: ExactState, evidence: seq<EvidenceRecord>, log: seq<AuditEvent>)
    requires Base(d, state, evidence, log) && Retained(d, state, evidence, log)
    requires state.stateVersion == |evidence| && RollbackOk(MachineOf(d, state, evidence, log))
    ensures EndingOk(MachineOf(d, state, evidence, log)) && !MachineOf(d, state, evidence, log).shape.ending.Completed?
  {
    hide OfType, RollbackBoundary, CreationAccepted, RecordValid, NonBlank, BaseEvidence, StrictlySorted, FaultPayloadAccepted, DistinctIds,
      Retained, RollbackOk, AfterEvidence, NotBeforeEvidence, StartedEvent;
    var m := MachineOf(d, state, evidence, log);
    if |OfType(log, RollbackStarted)| == 1 { RetainedStartIs(d, state, evidence, log); }
    if d.phase.PausedFault? {
      RetainedFaultIs(d, state, evidence, log);
      if m.shape.rollback.Some? { FaultAfterEvidence(m, d.updatedAt); }
    } else {
      RetainedOpenIs(d, state, evidence, log);
    }
  }

  lemma RetainedExpected(d: Deployment, state: ExactState, evidence: seq<EvidenceRecord>, log: seq<AuditEvent>, t: EventType)
    requires CreationAccepted(d, log) && Retained(d, state, evidence, log) && ActivationOk(d)
    ensures OfType(log, t) == Expected(MachineOf(d, state, evidence, log), t)
  {
    hide OfType, PrecedingCount, IndexOf, StateEventsAccepted, StartedEvent, ActivationEvent, StartAccepted, FaultAccepted, StateEvents, CreatedEvent;
    RetainedStateEvents(d, state, evidence, log);
    if |OfType(log, RollbackStarted)| == 1 { RetainedStartIs(d, state, evidence, log); }
    OfTypeCount(log);
    assert |OfType(log, RollbackStarted)| <= 1 && |OfType(log, FaultPaused)| <= 1;
  }

  /** A retained life that passes all checks is well shaped. */
  lemma ShapedOfRetained(d: Deployment, state: ExactState, evidence: seq<EvidenceRecord>, log: seq<AuditEvent>)
    requires Base(d, state, evidence, log) && Retained(d, state, evidence, log)
    ensures WellShaped(MachineOf(d, state, evidence, log)) && !MachineOf(d, state, evidence, log).shape.ending.Completed?
  {
    var m := MachineOf(d, state, evidence, log);
    RetainedStateEvents(d, state, evidence, log);
    RetainedAllFilled(d, state, evidence, log);
    RetainedRollback(d, state, evidence, log);
    RetainedEnding(d, state, evidence, log);
    forall t ensures OfType(log, t) == Expected(m, t) { RetainedExpected(d, state, evidence, log, t); }
    LogOkIffExpected(m);
    hide Retained, ShapeOf, EvidenceOk, RollbackOk, LogOk, CreationAccepted, BaseEvidence, NonBlank, StrictlySorted;
  }
}
