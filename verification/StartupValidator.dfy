/**
 The validator that runs when a pilot starts: it re-derives everything the persisted rows claim and
 accepts the deployment, its evidence, its exact state and its audit log, or throws.

 `Accepts` says, check by check, when it does not throw; `ValidateAuthority` is the validator with
 its scanning loops.
 */
module StartupValidator {
  import opened Basics
  import opened ExactDecimals
  import opened DecimalText
  import opened KeyOrder
  import opened CandidateReplay
  import opened PilotAudit

  datatype Outcome = CreatedOutcome | ExistingOutcome

  /** What the repository hands over at start-up. */
  datatype Authority = Authority(
    outcome: Outcome,
    deployment: Deployment,
    exactState: ExactState,
    evidence: seq<EvidenceRecord>,
    events: seq<AuditEvent>)

  /** The identity that is configured, and the single reading of the clock. */
  datatype Context = Context(deploymentId: string, exchangeAccountId: string, now: Timestamp)

  // ---------------------------------------------------------------------------------------------
  // Rows
  // ---------------------------------------------------------------------------------------------

  /** validateCandidatePilotDeployment. */
  predicate DeploymentValid(d: Deployment) {
    && NonBlank(d.id) && NonBlank(d.exchangeAccountId)
    && d.createdAt.epochNs <= d.updatedAt.epochNs
    && (d.activationAt.Some? <==> d.activationEpochNs.Some?)
    && (d.activationAt.Some? ==> d.activationAt.value.epochNs >= 0 && d.activationEpochNs == Some(d.activationAt.value.epochNs))
    && (d.phase.Active? || d.phase.Draining? ==> d.activationAt.Some?)
  }

  /** snapshotDeployment: besides, the configured identity and nothing out of time. */
  predicate DeploymentAccepted(d: Deployment, c: Context) {
    && DeploymentValid(d)
    && d.id == c.deploymentId && d.exchangeAccountId == c.exchangeAccountId
    && d.createdAt.epochNs <= c.now.epochNs && d.updatedAt.epochNs <= c.now.epochNs
    && (d.activationAt.Some? ==> d.createdAt.epochNs <= d.activationAt.value.epochNs <= d.updatedAt.epochNs)
  }

  /** The checks of one evidence record, without those that compare it with others. */
  predicate RecordAccepted(r: EvidenceRecord, d: Deployment, now: Timestamp) {
    && RecordValid(r, d.id)
    && RecordAt(r) <= now.epochNs
    && d.activationAt.Some? && RecordAt(r) >= d.activationAt.value.epochNs
  }

  predicate DistinctEvidenceIds(records: seq<EvidenceRecord>) {
    forall i, j :: 0 <= i < j < |records| ==> records[i].evidence.evidenceId != records[j].evidence.evidenceId
  }

  predicate EvidenceAccepted(records: seq<EvidenceRecord>, d: Deployment, now: Timestamp) {
    && (forall i :: 0 <= i < |records| ==> RecordAccepted(records[i], d, now))
    && DistinctEvidenceIds(records)
    && ScannedSorted(records, RecordKey)
  }

  predicate PayloadIsJson(p: Payload) { p.OtherPayload? ==> !p.kind.NotJson? }

  /** The checks of one audit event, without those that compare it with others. */
  predicate EventAccepted(e: AuditEvent, d: Deployment, state: ExactState, now: Timestamp) {
    && NonBlank(e.id) && e.deploymentId == d.id
    && 0 <= e.stateVersion <= state.stateVersion
    && PayloadIsJson(e.payload)
    && d.createdAt.epochNs <= e.createdAt.epochNs <= now.epochNs
  }

  predicate EventsAccepted(log: seq<AuditEvent>, d: Deployment, state: ExactState, now: Timestamp) {
    && (forall i :: 0 <= i < |log| ==> EventAccepted(log[i], d, state, now))
    && DistinctIds(log)
    && ScannedSorted(log, EventKey)
  }

  /** A canonical quantity above the tolerance: an open position for the routing state. */
  predicate IsOpenQuantity(quantity: string) {
    var parsed := ParseNonNegative(quantity);
    parsed.Some? && Compare(parsed.value, TOLERANCE) > 0
  }

  /** The fewest fills that can have led to a state. */
  function MinimumVersion(s: ExactState): nat {
    (if s.lastFullExitAt.None? then 0 else 2)
    + (if IsOpenQuantity(s.inventory) then 1 + s.addCount + (if s.realizedPnl != "0" then 1 else 0) else 0)
  }

  /** toPositionGuardCandidateRoutingState, with exact amounts for its floating-point numbers. */
  predicate Routable(s: ExactState) {
    && IsCanonicalNonNegative(s.costBasis) && IsCanonicalNonNegative(s.inventory) && IsCanonicalSigned(s.realizedPnl)
    && (s.lastFullExitPnl.Some? ==> IsCanonicalSigned(s.lastFullExitPnl.value))
    && (s.lastFullExitAt.Some? <==> s.lastFullExitPnl.Some?)
    && (s.lastFullExitAt.Some? ==> s.lastEntryPath.Some?)
    && (if s.lastEvidenceAt.None? then s == EMPTY_STATE
        else
          && s.lastEvidenceId.Some? && NonBlank(s.lastEvidenceId.value) && s.stateVersion > 0
          && (s.lastFullExitAt.Some? ==> s.lastFullExitAt.value.epochNs <= s.lastEvidenceAt.value.epochNs))
    && (if IsOpenQuantity(s.inventory) then s.costBasis != "0" && s.lastEntryPath.Some?
        else IsRollbackFlat(s) && (s.lastEvidenceAt.Some? ==> s.lastFullExitAt.Some?))
    && s.stateVersion >= MinimumVersion(s)
  }

  // ---------------------------------------------------------------------------------------------
  // The audit log
  // ---------------------------------------------------------------------------------------------

  function OfType(log: seq<AuditEvent>, t: EventType): seq<AuditEvent> {
    if log == [] then []
    else if log[0].eventType == t then [log[0]] + OfType(log[1..], t)
    else OfType(log[1..], t)
  }

  /** Position of the first occurrence, or the length of the log. */
  function IndexOf(log: seq<AuditEvent>, e: AuditEvent): (i: nat)
    ensures i <= |log|
  {
    if log == [] || log[0] == e then 0 else 1 + IndexOf(log[1..], e)
  }

  /** How many of the state events stand before the mark in the log. */
  function PrecedingCount(log: seq<AuditEvent>, stateEvents: seq<AuditEvent>, mark: AuditEvent): (n: nat)
    ensures n <= |stateEvents|
  {
    if stateEvents == [] then 0
    else (if IndexOf(log, stateEvents[0]) < IndexOf(log, mark) then 1 else 0) + PrecedingCount(log, stateEvents[1..], mark)
  }

  predicate CreationAccepted(d: Deployment, log: seq<AuditEvent>) {
    OfType(log, DeploymentCreated) == [CreatedEvent(d)]
  }

  predicate ActivationAccepted(d: Deployment, evidence: seq<EvidenceRecord>, log: seq<AuditEvent>) {
    if d.activationAt.None? || d.activationEpochNs.None? then
      !d.phase.Active? && OfType(log, PhaseTransition) == [] && evidence == []
    else
      OfType(log, PhaseTransition) == [ActivationEvent(d)] && (d.phase.Active? ==> d.updatedAt == d.activationAt.value)
  }

  /** Each state event links its evidence, in the phase given by the rollback boundary. */
  predicate StateEventsAccepted(d: Deployment, evidence: seq<EvidenceRecord>, stateEvents: seq<AuditEvent>, boundary: nat) {
    && |stateEvents| == |evidence|
    && forall i :: 0 <= i < |evidence| ==>
         && (i >= boundary ==> IsSell(evidence[i].evidence.action))
         && stateEvents[i] == AdvancedEvent(d, evidence[i], i, if i >= boundary then Draining else Active)
  }

  predicate LastNotAfter(evidence: seq<EvidenceRecord>, at: int) {
    evidence != [] ==> RecordAt(evidence[|evidence| - 1]) <= at
  }

  /** assertCanonicalRollbackStartedAudit. */
  predicate StartAccepted(d: Deployment, evidence: seq<EvidenceRecord>, log: seq<AuditEvent>, rollback: AuditEvent,
                          fault: Option<AuditEvent>, boundary: nat)
    requires boundary <= |evidence|
  {
    && d.activationAt.Some? && d.activationEpochNs.Some?
    && rollback.payload.TransitionPayload?
    && rollback == StartedEvent(d, rollback.payload.transitionAt, boundary)
    && var at := rollback.createdAt.epochNs;
       && at >= d.activationAt.value.epochNs
       && (if fault.Some? then at < fault.value.createdAt.epochNs else d.updatedAt == rollback.createdAt)
       && (boundary > 0 ==> RecordAt(evidence[boundary - 1]) <= at)
       && (boundary < |evidence| ==> at <= RecordAt(evidence[boundary]))
       && (boundary < |evidence| && fault.Some? ==> RecordAt(evidence[|evidence| - 1]) < fault.value.createdAt.epochNs)
       && OfType(log, PhaseTransition) != []
       && IndexOf(log, OfType(log, PhaseTransition)[0]) < IndexOf(log, rollback)
       && (fault.Some? ==> IndexOf(log, rollback) < IndexOf(log, fault.value))
  }

  /** assertCanonicalFaultAudit. */
  predicate FaultAccepted(d: Deployment, state: ExactState, evidence: seq<EvidenceRecord>, fault: AuditEvent, from: Phase) {
    && fault.fromPhase == Some(from) && fault.toPhase == Some(PausedFault)
    && fault.stateVersion == state.stateVersion && fault.createdAt == d.updatedAt
    && FaultPayloadAccepted(fault.payload)
    && LastNotAfter(evidence, fault.createdAt.epochNs)
  }

  /** The state version at which rollback started, if one rollback event says so. */
  function RollbackBoundary(log: seq<AuditEvent>, evidence: seq<EvidenceRecord>): nat {
    var rollbacks := OfType(log, RollbackStarted);
    if |rollbacks| == 1 then PrecedingCount(log, OfType(log, StateAdvanced), rollbacks[0]) else |evidence|
  }

  /** The part of assertRetainedLifecycleAuthority that depends on the phase. */
  predicate PhaseAccepted(d: Deployment, state: ExactState, evidence: seq<EvidenceRecord>, log: seq<AuditEvent>, boundary: nat)
    requires boundary <= |evidence|
  {
    var faults, rollbacks := OfType(log, FaultPaused), OfType(log, RollbackStarted);
    match d.phase
    case Active => faults == [] && rollbacks == []
    case Draining => faults == [] && |rollbacks| == 1 && StartAccepted(d, evidence, log, rollbacks[0], None, boundary)
    case PausedFault =>
      && |faults| == 1
      && FaultAccepted(d, state, evidence, faults[0],
           if rollbacks != [] then Draining else if d.activationAt.None? then PendingFlat else Active)
      && (rollbacks != [] ==> |rollbacks| == 1 && StartAccepted(d, evidence, log, rollbacks[0], Some(faults[0]), boundary))
    case _ => false
  }

  /** assertRetainedLifecycleAuthority. */
  predicate Retained(d: Deployment, state: ExactState, evidence: seq<EvidenceRecord>, log: seq<AuditEvent>) {
    var stateEvents, rollbacks := OfType(log, StateAdvanced), OfType(log, RollbackStarted);
    var boundary := RollbackBoundary(log, evidence);
    && ActivationAccepted(d, evidence, log)
    && |stateEvents| == |evidence|
    && (|rollbacks| == 1 ==> rollbacks[0].stateVersion == boundary)
    && StateEventsAccepted(d, evidence, stateEvents, boundary)
    && PhaseAccepted(d, state, evidence, log, boundary)
    && |log| == 1 + |OfType(log, PhaseTransition)| + |stateEvents| + |rollbacks| + |OfType(log, FaultPaused)|
  }

  predicate Pristine(d: Deployment, state: ExactState, evidence: seq<EvidenceRecord>, log: seq<AuditEvent>) {
    d.activationAt.None? && d.activationEpochNs.None? && d.updatedAt == d.createdAt && state == EMPTY_STATE && evidence == [] && |log| == 1
  }

  /** What the log was before the completion of the rollback, by the phase that completed. */
  predicate PredecessorAccepted(d: Deployment, state: ExactState, evidence: seq<EvidenceRecord>, before: seq<AuditEvent>,
                                from: Option<Phase>, at: int)
  {
    match from
    case Some(PendingFlat) =>
      && d.activationAt.None? && d.activationEpochNs.None? && evidence == [] && state == EMPTY_STATE
      && |before| == 1 && CreationAccepted(d, before)
    case Some(Active) =>
      && d.activationAt.Some? && at >= d.activationAt.value.epochNs
      && Retained(d.(phase := Active, updatedAt := d.activationAt.value), state, evidence, before)
    case Some(Draining) =>
      var rollbacks := OfType(before, RollbackStarted);
      && rollbacks != [] && at > rollbacks[0].createdAt.epochNs
      && Retained(d.(phase := Draining, updatedAt := rollbacks[0].createdAt), state, evidence, before)
    case _ => false
  }

  /** assertDisabledLifecycleAuthority. */
  predicate DisabledAccepted(d: Deployment, state: ExactState, evidence: seq<EvidenceRecord>, log: seq<AuditEvent>) {
    var completions := OfType(log, RollbackCompleted);
    && IsRollbackFlat(state)
    && |completions| == 1 && OfType(log, FaultPaused) == []
    && completions[0].payload == TransitionPayload(completions[0].createdAt)
    && completions[0].id == CompletedId(d.id, completions[0].createdAt.epochNs) && completions[0].deploymentId == d.id
    && completions[0].toPhase == Some(Disabled) && completions[0].stateVersion == state.stateVersion
    && completions[0].createdAt == d.updatedAt
    && PredecessorAccepted(d, state, evidence, Without(log, completions[0]), completions[0].fromPhase, completions[0].createdAt.epochNs)
    && LastNotAfter(evidence, completions[0].createdAt.epochNs)
    && log != [] && log[|log| - 1] == completions[0]
  }

  predicate OutcomeAccepted(a: Authority, c: Context) {
    a.outcome.CreatedOutcome? ==>
      a.deployment.phase.PendingFlat? && a.deployment.createdAt == c.now && a.deployment.updatedAt == c.now
  }

  predicate LifecycleAccepted(a: Authority) {
    match a.deployment.phase
    case PendingFlat => Pristine(a.deployment, a.exactState, a.evidence, a.events)
    case Disabled => DisabledAccepted(a.deployment, a.exactState, a.evidence, a.events)
    case _ => Retained(a.deployment, a.exactState, a.evidence, a.events)
  }

  /** validateAndSnapshotAuthority does not throw. */
  ghost predicate Accepts(a: Authority, c: Context) {
    && DeploymentAccepted(a.deployment, c)
    && EvidenceAccepted(a.evidence, a.deployment, c.now)
    && Routable(a.exactState)
    && Project(Items(a.evidence)) == Some(a.exactState)
    && EventsAccepted(a.events, a.deployment, a.exactState, c.now)
    && CreationAccepted(a.deployment, a.events)
    && OutcomeAccepted(a, c)
    && LifecycleAccepted(a)
  }

  // ---------------------------------------------------------------------------------------------
  // The scanning loops
  // ---------------------------------------------------------------------------------------------

  /** snapshotEvidenceRecords: one pass with the identifiers seen and the previous key. */
  method SnapshotEvidenceRecords(records: seq<EvidenceRecord>, d: Deployment, now: Timestamp) returns (ok: bool)
    ensures ok <==> EvidenceAccepted(records, d, now)
  {
    hide RecordAccepted, KeyLess;
    var ids: set<string> := {};
    var previous: Option<Key> := None;
    for i := 0 to |records|
      invariant forall k :: 0 <= k < i ==> RecordAccepted(records[k], d, now)
      invariant ids == set k | 0 <= k < i :: records[k].evidence.evidenceId
      invariant DistinctEvidenceIds(records[..i])
      invariant previous == if i == 0 then None else Some(RecordKey(records[i - 1]))
      invariant ScannedSorted(records[..i], RecordKey)
    {
      var r := records[i];
      if !RecordAccepted(r, d, now) { return false; }
      if r.evidence.evidenceId in ids {
        var k :| 0 <= k < i && records[k].evidence.evidenceId == r.evidence.evidenceId;
        return false;
      }
      if previous.Some? && !KeyLess(previous.value, RecordKey(r)) { return false; }
      ids := ids + {r.evidence.evidenceId};
      previous := Some(RecordKey(r));
      assert records[..i + 1] == records[..i] + [r];
    }
    assert records[..|records|] == records;
    ok := true;
  }

  /** snapshotAuditEvents. */
  method SnapshotAuditEvents(log: seq<AuditEvent>, d: Deployment, state: ExactState, now: Timestamp) returns (ok: bool)
    ensures ok <==> EventsAccepted(log, d, state, now)
  {
    hide EventAccepted, KeyLess;
    var ids: set<string> := {};
    var previous: Option<Key> := None;
    for i := 0 to |log|
      invariant forall k :: 0 <= k < i ==> EventAccepted(log[k], d, state, now)
      invariant ids == set k | 0 <= k < i :: log[k].id
      invariant DistinctIds(log[..i])
      invariant previous == if i == 0 then None else Some(EventKey(log[i - 1]))
      invariant ScannedSorted(log[..i], EventKey)
    {
      var e := log[i];
      if !EventAccepted(e, d, state, now) { return false; }
      if e.id in ids {
        var k :| 0 <= k < i && log[k].id == e.id;
        return false;
      }
      if previous.Some? && !KeyLess(previous.value, EventKey(e)) { return false; }
      ids := ids + {e.id};
      previous := Some(EventKey(e));
      assert log[..i + 1] == log[..i] + [e];
    }
    assert log[..|log|] == log;
    ok := true;
  }

  /** projectExactCandidateState over the evidence of the records, compared with the persisted state. */
  method StateMatchesEvidence(state: ExactState, records: seq<EvidenceRecord>) returns (ok: bool)
    ensures ok <==> Project(Items(records)) == Some(state)
  {
    var projected := ProjectExactCandidateState(Items(records));
    ok := projected == Some(state);
  }

  /** validateAndSnapshotAuthority. */
  method ValidateAuthority(a: Authority, c: Context) returns (ok: bool)
    ensures ok <==> Accepts(a, c)
  {
    hide DeploymentAccepted, EvidenceAccepted, Routable, EventsAccepted, CreationAccepted, OutcomeAccepted, LifecycleAccepted, Project;
    if !DeploymentAccepted(a.deployment, c) { return false; }
    var evidenceOk := SnapshotEvidenceRecords(a.evidence, a.deployment, c.now);
    if !evidenceOk || !Routable(a.exactState) { return false; }
    var replayed := StateMatchesEvidence(a.exactState, a.evidence);
    if !replayed { return false; }
    var eventsOk := SnapshotAuditEvents(a.events, a.deployment, a.exactState, c.now);
    if !eventsOk { return false; }
    ok := CreationAccepted(a.deployment, a.events) && OutcomeAccepted(a, c) && LifecycleAccepted(a);
  }
}
