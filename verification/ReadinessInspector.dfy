/**
 The offline inspector's own reading of the audit log, written independently of the start-up
 validator: it takes prefixes of the log and compares positions where the other one cuts and compares
 instants.
 */
module ReadinessInspector {
  import opened Basics
  import opened DecimalText
  import opened KeyOrder
  import opened CandidateReplay
  import opened PilotAudit
  import opened StartupValidator

  predicate PayloadIsObject(p: Payload) { p.OtherPayload? ==> p.kind.JsonObject? }

  /** The checks of validateAuditRows on one row. */
  predicate RowAccepted(e: AuditEvent, d: Deployment, state: ExactState, checkedAt: Timestamp) {
    && |e.id| > 0 && e.deploymentId == d.id
    && 0 <= e.stateVersion <= state.stateVersion
    && PayloadIsObject(e.payload)
    && d.createdAt.epochNs <= e.createdAt.epochNs <= checkedAt.epochNs
  }

  predicate RowsAccepted(log: seq<AuditEvent>, d: Deployment, state: ExactState, checkedAt: Timestamp) {
    && (forall i :: 0 <= i < |log| ==> RowAccepted(log[i], d, state, checkedAt))
    && DistinctIds(log)
    && ScannedSorted(log, EventKey)
  }

  /** validateAuditRows. */
  method ValidateAuditRows(log: seq<AuditEvent>, d: Deployment, state: ExactState, checkedAt: Timestamp) returns (ok: bool)
    ensures ok <==> RowsAccepted(log, d, state, checkedAt)
  {
    hide RowAccepted, KeyLess;
    var ids: set<string> := {};
    var previous: Option<Key> := None;
    for i := 0 to |log|
      invariant forall k :: 0 <= k < i ==> RowAccepted(log[k], d, state, checkedAt)
      invariant ids == set k | 0 <= k < i :: log[k].id
      invariant DistinctIds(log[..i])
      invariant previous == if i == 0 then None else Some(EventKey(log[i - 1]))
      invariant ScannedSorted(log[..i], EventKey)
    {
      var e := log[i];
      if e.id in ids {
        var k :| 0 <= k < i && log[k].id == e.id;
        return false;
      }
      ids := ids + {e.id};
      if !RowAccepted(e, d, state, checkedAt) { return false; }
      if previous.Some? && !KeyLess(previous.value, EventKey(e)) { return false; }
      previous := Some(EventKey(e));
      assert log[..i + 1] == log[..i] + [e];
    }
    assert log[..|log|] == log;
    ok := true;
  }

  /** assertCanonicalCreationEvent. */
  predicate CreationIsFirst(d: Deployment, log: seq<AuditEvent>) {
    var creations := OfType(log, DeploymentCreated);
    |creations| == 1 && creations[0] == CreatedEvent(d) && log != [] && log[0].id == creations[0].id
  }

  /** Activation and its event, or neither and no evidence. */
  predicate ActivationInspected(d: Deployment, evidence: seq<EvidenceRecord>, log: seq<AuditEvent>) {
    var activations := OfType(log, PhaseTransition);
    && (d.activationAt.None? <==> d.activationEpochNs.None?)
    && (if d.activationAt.Some? then
          && |activations| == 1 && d.activationEpochNs.Some? && activations[0] == ActivationEvent(d)
          && d.activationAt.value.epochNs == d.activationEpochNs.value
          && d.activationEpochNs.value > d.createdAt.epochNs
        else activations == [] && evidence == [])
  }

  /** The number of state events in the log before a position. */
  function StateEventsBefore(log: seq<AuditEvent>, mark: AuditEvent): nat {
    |OfType(log[..IndexOf(log, mark)], StateAdvanced)|
  }

  /** assertCanonicalRollbackStart. */
  predicate StartInspected(d: Deployment, evidence: seq<EvidenceRecord>, log: seq<AuditEvent>, rollback: AuditEvent) {
    var preceding, at := StateEventsBefore(log, rollback), rollback.createdAt.epochNs;
    && d.activationAt.Some? && d.activationEpochNs.Some?
    && rollback.id == StartedId(d.id, at)
    && rollback.fromPhase == Some(Active) && rollback.toPhase == Some(Draining)
    && rollback.stateVersion == preceding && rollback.payload == TransitionPayload(rollback.createdAt)
    && at >= d.activationAt.value.epochNs
    && OfType(log, PhaseTransition) != [] && IndexOf(log, OfType(log, PhaseTransition)[0]) < IndexOf(log, rollback)
    && forall i :: 0 <= i < |evidence| ==>
         !(i < preceding && RecordAt(evidence[i]) > at) && !(i >= preceding && RecordAt(evidence[i]) < at)
  }

  /** One state event against its evidence record. */
  predicate StateInspected(d: Deployment, r: EvidenceRecord, e: AuditEvent, i: nat, phase: Phase) {
    && (phase.Draining? ==> IsSell(r.evidence.action))
    && e.id == EvidenceEventId(d.id, r.evidence.evidenceId)
    && e.fromPhase == Some(phase) && e.toPhase == Some(phase) && e.stateVersion == i + 1
    && e.payload == AdvancePayload(r.evidence.evidenceId, r.materialHash, r.materialVersion, i, i + 1)
    && e.createdAt == r.evidence.executedAt
    && d.activationAt.Some? && RecordAt(r) > d.activationAt.value.epochNs
  }

  /** DRAINING from the boundary on, ACTIVE before it and while there is none. */
  function PhaseAt(boundary: Option<nat>, i: nat): Phase {
    if boundary.Some? && i >= boundary.value then Draining else Active
  }

  /** assertCanonicalStateEvents. */
  predicate StatesInspected(d: Deployment, state: ExactState, evidence: seq<EvidenceRecord>, log: seq<AuditEvent>, boundary: Option<nat>) {
    var stateEvents := OfType(log, StateAdvanced);
    && |stateEvents| == |evidence| && state.stateVersion == |evidence|
    && (forall i :: 0 <= i < |evidence| ==> StateInspected(d, evidence[i], stateEvents[i], i, PhaseAt(boundary, i)))
    && (forall i :: 0 < i < |evidence| ==> IndexOf(log, stateEvents[i - 1]) < IndexOf(log, stateEvents[i]))
  }

  predicate PrecedesAllState(log: seq<AuditEvent>, e: AuditEvent) {
    var stateEvents := OfType(log, StateAdvanced);
    stateEvents != [] ==> IndexOf(log, stateEvents[|stateEvents| - 1]) < IndexOf(log, e)
  }

  /** assertCanonicalFaultEvent. */
  predicate FaultInspected(d: Deployment, state: ExactState, evidence: seq<EvidenceRecord>, log: seq<AuditEvent>, rollback: Option<AuditEvent>) {
    var faults := OfType(log, FaultPaused);
    && |faults| == 1
    && var fault := faults[0];
       (&& fault.fromPhase == Some(if rollback.Some? then Draining else if d.activationAt.None? then PendingFlat else Active)
        && fault.toPhase == Some(PausedFault) && fault.stateVersion == state.stateVersion && fault.createdAt == d.updatedAt
        && FaultPayloadAccepted(fault.payload)
        && (evidence != [] ==>
              if rollback.None? then fault.createdAt.epochNs >= RecordAt(evidence[|evidence| - 1])
              else fault.createdAt.epochNs > RecordAt(evidence[|evidence| - 1]))
        && (rollback.Some? ==> IndexOf(log, rollback.value) < IndexOf(log, fault))
        && PrecedesAllState(log, fault)
        && (rollback.None? && OfType(log, PhaseTransition) != [] ==>
              IndexOf(log, OfType(log, PhaseTransition)[0]) < IndexOf(log, fault)))
  }

  /** assertCanonicalRollbackCompletion. */
  predicate CompletionInspected(d: Deployment, state: ExactState, log: seq<AuditEvent>, rollback: Option<AuditEvent>) {
    var completions := OfType(log, RollbackCompleted);
    && |completions| == 1
    && var c := completions[0];
       (&& c.fromPhase in {Some(PendingFlat), Some(Active), Some(Draining)}
        && c.toPhase == Some(Disabled) && c.stateVersion == state.stateVersion && c.createdAt == d.updatedAt
        && c.id == CompletedId(d.id, c.createdAt.epochNs) && c.payload == TransitionPayload(c.createdAt)
        && IsRollbackFlat(state)
        && (c.fromPhase == Some(Draining) <==> rollback.Some?)
        && (c.fromPhase == Some(Active) ==> d.activationAt.Some?)
        && (c.fromPhase == Some(PendingFlat) ==> d.activationAt.None? && rollback.None?)
        && (rollback.Some? ==> IndexOf(log, rollback.value) < IndexOf(log, c))
        && PrecedesAllState(log, c))
  }

  function OnlyRollback(log: seq<AuditEvent>): Option<AuditEvent> {
    var rollbacks := OfType(log, RollbackStarted);
    if |rollbacks| == 1 then Some(rollbacks[0]) else None
  }

  predicate PhaseInspected(d: Deployment, state: ExactState, evidence: seq<EvidenceRecord>, log: seq<AuditEvent>) {
    var rollback, faults, completions := OnlyRollback(log), OfType(log, FaultPaused), OfType(log, RollbackCompleted);
    match d.phase
    case PendingFlat =>
      && d.activationAt.None? && evidence == [] && state.stateVersion == 0 && d.updatedAt == d.createdAt
      && rollback.None? && faults == [] && completions == []
    case Active =>
      && d.activationAt.Some? && d.updatedAt == d.activationAt.value && rollback.None? && faults == [] && completions == []
    case Draining =>
      && d.activationAt.Some? && rollback.Some? && d.updatedAt == rollback.value.createdAt && faults == [] && completions == []
    case PausedFault => completions == [] && FaultInspected(d, state, evidence, log, rollback)
    case Disabled => faults == [] && CompletionInspected(d, state, log, rollback)
  }

  /** assertCanonicalAuditLifecycle. */
  predicate LifecycleInspected(d: Deployment, state: ExactState, evidence: seq<EvidenceRecord>, log: seq<AuditEvent>) {
    var rollback := OnlyRollback(log);
    && CreationIsFirst(d, log)
    && ActivationInspected(d, evidence, log)
    && |OfType(log, RollbackStarted)| <= 1
    && (rollback.Some? ==> StartInspected(d, evidence, log, rollback.value))
    && StatesInspected(d, state, evidence, log, if rollback.Some? then Some(StateEventsBefore(log, rollback.value)) else None)
    && PhaseInspected(d, state, evidence, log)
    && |log| == 1 + |OfType(log, PhaseTransition)| + |OfType(log, StateAdvanced)| + |OfType(log, RollbackStarted)|
              + |OfType(log, RollbackCompleted)| + |OfType(log, FaultPaused)|
  }

  /** exactStateFromRow: the amounts of the state row in canonical form, and what belongs together persisted together. */
  predicate StateRowRead(s: ExactState) {
    && IsCanonicalNonNegative(s.costBasis) && IsCanonicalNonNegative(s.inventory) && IsCanonicalSigned(s.realizedPnl)
    && (s.lastFullExitPnl.Some? ==> IsCanonicalSigned(s.lastFullExitPnl.value))
    && (s.lastFullExitAt.Some? <==> s.lastFullExitPnl.Some?)
    && (s.lastEvidenceAt.Some? <==> s.lastEvidenceId.Some?)
  }

  /** The state_replay check passes: a readable row, evidence as the query orders it, valid material, equal replay. */
  ghost predicate ReplayInspected(d: Deployment, state: ExactState, evidence: seq<EvidenceRecord>) {
    && StateRowRead(state)
    && StrictlySorted(evidence, RecordKey)
    && (forall i :: 0 <= i < |evidence| ==> RecordValid(evidence[i], d.id))
    && Project(Items(evidence)) == Some(state)
  }

  /** The inspector passes the deployment, its replay and its audit chain. */
  ghost predicate Inspects(a: Authority, checkedAt: Timestamp) {
    && DeploymentValid(a.deployment)
    && ReplayInspected(a.deployment, a.exactState, a.evidence)
    && RowsAccepted(a.events, a.deployment, a.exactState, checkedAt)
    && LifecycleInspected(a.deployment, a.exactState, a.evidence, a.events)
  }
}
