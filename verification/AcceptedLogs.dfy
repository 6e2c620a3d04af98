/**
 What the rows of an accepted deployment say, written out: each audit event field by field, and the
 conditions under which evidence and a fault are taken at all.
 */
module AcceptedLogs {
  import opened Basics
  import opened DecimalText
  import opened KeyOrder
  import opened CandidateReplay
  import opened LedgerLaws
  import opened PilotAudit
  import opened PilotMachine
  import opened StartupValidator
  import opened StartupMain

  /**
   Evidence is taken exactly when its four quantities are canonical texts, its identifier is not blank, it
   is not from before the epoch, and it is either a fill of some value or a cancellation without value
   and fee.
   */
  lemma MaterialAcceptedIff(e: Evidence)
    ensures MaterialAccepted(e) <==>
              && IsCanonicalNonNegative(e.executedQuantity) && IsCanonicalNonNegative(e.grossQuoteValue)
              && IsCanonicalNonNegative(e.confirmedFee) && IsCanonicalNonNegative(e.remainingQuantity)
              && (exists i :: 0 <= i < |e.evidenceId| && e.evidenceId[i] !in {' ', '\t', '\n', '\r'})
              && e.executedAt.epochNs >= 0
              && if Amount(e.executedQuantity) > 0.0 then Amount(e.grossQuoteValue) > 0.0
                 else e.terminalStatus == Canceled && Amount(e.grossQuoteValue) == 0.0 && Amount(e.confirmedFee) == 0.0
  {
    hide IsCanonicalNonNegative, Amount;
    if CanonicalEvidence(e) {
      AmountOfCanonical(e.executedQuantity);
      AmountOfCanonical(e.grossQuoteValue);
      AmountOfCanonical(e.confirmedFee);
    }
  }

  /** A record is that of its deployment exactly when it is hashed under its identifier in the exact format. */
  lemma RecordValidIff(r: EvidenceRecord, deploymentId: string)
    ensures RecordValid(r, deploymentId) <==> MaterialAccepted(r.evidence) && r == EvidenceRecord(r.evidence, HashOf(deploymentId, r.evidence), ExactV2)
  {
    hide MaterialAccepted;
  }

  /** A fault gives one of nine reasons and a JSON object as its provenance. */
  lemma FaultPayloadIff(p: Payload)
    ensures FaultPayloadAccepted(p) <==>
              exists provenance, reason ::
                p == FaultPayload(reason, provenance, JsonObject) &&
                reason in {SnapshotProvenanceInvalid, StaleSnapshot, IdentityMismatch, ReplayMismatch, InventoryMismatch,
                           BlockingReconciliation, ActiveOrder, UncertainOrder, ActivationCasConflict}
  {
    if FaultPayloadAccepted(p) { assert p == FaultPayload(p.reason, p.provenance, JsonObject); }
  }

  /** An instant is written in decimal digits, with a minus sign before 1970. */
  lemma EpochTextIs(n: int)
    requires n >= 0
    ensures AllDigits(EpochText(n)) && ParseDigits(EpochText(n)) == n
    ensures n > 0 ==> EpochText(-n) == "-" + EpochText(n)
  {
    ParseOfDigits(n);
  }

  /** A rollback has started before the instant. */
  ghost predicate StartedBefore(log: seq<AuditEvent>, at: int) {
    exists s :: s in log && s.eventType == RollbackStarted && s.createdAt.epochNs < at
  }

  /** An accepted log, event by event. */
  ghost predicate AsLogged(e: AuditEvent, d: Deployment, evidence: seq<EvidenceRecord>, log: seq<AuditEvent>) {
    match e.eventType
    case DeploymentCreated => e == AuditEvent(d.id + ":created", d.id, DeploymentCreated, None, Some(PendingFlat), 0, CreationPayload, d.createdAt)
    case PhaseTransition =>
      d.activationAt.Some? &&
      var at := d.activationAt.value;
      e == AuditEvent(d.id + (":activation:" + EpochText(at.epochNs)), d.id, PhaseTransition, Some(PendingFlat), Some(Active), 0,
                      ActivationPayload(at, at.epochNs), at)
    case StateAdvanced =>
      1 <= e.stateVersion <= |evidence| &&
      var x, n := evidence[e.stateVersion - 1].evidence, e.stateVersion;
      var phase := Some(if StartedBefore(log, x.executedAt.epochNs) then Draining else Active);
      e == AuditEvent(d.id + (":evidence:" + x.evidenceId), d.id, StateAdvanced, phase, phase, n,
                      AdvancePayload(x.evidenceId, HashOf(d.id, x), ExactV2, n - 1, n), x.executedAt)
    case RollbackStarted =>
      && e == AuditEvent(d.id + (":rollback_started:" + EpochText(e.createdAt.epochNs)), d.id, RollbackStarted, Some(Active), Some(Draining),
                         e.stateVersion, TransitionPayload(e.createdAt), e.createdAt)
      && forall i :: 0 <= i < |evidence| ==> (i < e.stateVersion <==> RecordAt(evidence[i]) <= e.createdAt.epochNs)
    case RollbackCompleted =>
      && d.phase == Disabled && e.fromPhase in {Some(PendingFlat), Some(Active), Some(Draining)}
      && e == AuditEvent(d.id + (":rollback_completed:" + EpochText(d.updatedAt.epochNs)), d.id, RollbackCompleted, e.fromPhase, Some(Disabled),
                         |evidence|, TransitionPayload(d.updatedAt), d.updatedAt)
    case FaultPaused =>
      && d.phase == PausedFault && e.fromPhase in {Some(PendingFlat), Some(Active), Some(Draining)}
      && e == AuditEvent(e.id, d.id, FaultPaused, e.fromPhase, Some(PausedFault), |evidence|, e.payload, d.updatedAt)
      && NonBlank(e.id) && FaultPayloadAccepted(e.payload)
  }

  lemma StartedBeforeIff(m: Machine, at: int)
    requires WellShaped(m)
    ensures StartedBefore(m.log, at) <==> m.shape.rollback.Some? && m.shape.rollback.value.epochNs < at
  {
    hide EvidenceOk, EndingOk, ActivationOk, NonBlank, StrictlySorted, DistinctIds, StartedId;
    if m.shape.rollback.Some? {
      var s := StartedEvent(m.deployment, m.shape.rollback.value, m.shape.boundary);
      assert IsCausal(s, m);
      assert s in m.log && s.eventType == RollbackStarted && s.createdAt == m.shape.rollback.value;
    }
    if s :| s in m.log && s.eventType == RollbackStarted && s.createdAt.epochNs < at { assert IsCausal(s, m); }
  }

  lemma OpenPhaseIs(m: Machine)
    ensures OpenPhase(m) in {PendingFlat, Active, Draining}
  {
  }

  lemma LoggedOfShaped(m: Machine, e: AuditEvent)
    requires WellShaped(m) && e in m.log
    ensures AsLogged(e, m.deployment, m.evidence, m.log)
  {
    hide Replay, NonBlank, StrictlySorted, DistinctIds, FaultPayloadAccepted, IsRollbackFlat, IsFill, MaterialAccepted, StartedBefore, IsSell, NotBeforeEvidence,
      AfterEvidence, EpochText;
    assert IsCausal(e, m);
    OpenPhaseIs(m);
    if e.eventType.StateAdvanced? {
      var r := m.evidence[e.stateVersion - 1];
      StartedBeforeIff(m, RecordAt(r));
      assert RecordValid(r, m.deployment.id);
    }
  }

  /** Every event of an accepted log is what the life of the deployment writes, field by field. */
  lemma AcceptedEventIs(a: Authority, c: Context, e: AuditEvent)
    requires Accepts(a, c) && e in a.events
    ensures AsLogged(e, a.deployment, a.evidence, a.events)
  {
    hide Accepts, WellShaped, AsLogged;
    var shape := ShapedOfAccepts(a, c);
    LoggedOfShaped(Machine(a.deployment, a.evidence, a.exactState, a.events, shape), e);
  }

  ghost predicate Has(log: seq<AuditEvent>, t: EventType) { exists e :: e in log && e.eventType == t }

  ghost predicate HasVersion(log: seq<AuditEvent>, version: int) { exists e :: e in log && e.eventType == StateAdvanced && e.stateVersion == version }

  /** And every event that must be there is: the creation, the activation of an activated deployment, and one event for each record. */
  lemma AcceptedLogHas(a: Authority, c: Context)
    requires Accepts(a, c)
    ensures Has(a.events, DeploymentCreated)
    ensures a.deployment.activationAt.Some? <==> Has(a.events, PhaseTransition)
    ensures forall n :: 1 <= n <= |a.evidence| ==> HasVersion(a.events, n)
    ensures a.deployment.phase == Draining ==> Has(a.events, RollbackStarted)
    ensures a.deployment.phase == Disabled <==> Has(a.events, RollbackCompleted)
    ensures a.deployment.phase == PausedFault <==> Has(a.events, FaultPaused)
  {
    hide Accepts, WellShaped, Has, HasVersion;
    var shape := ShapedOfAccepts(a, c);
    LogOfShaped(Machine(a.deployment, a.evidence, a.exactState, a.events, shape));
  }

  lemma LogOfShaped(m: Machine)
    requires WellShaped(m)
    ensures Has(m.log, DeploymentCreated)
    ensures m.deployment.activationAt.Some? <==> Has(m.log, PhaseTransition)
    ensures forall n :: 1 <= n <= |m.evidence| ==> HasVersion(m.log, n)
    ensures m.deployment.phase == Draining ==> Has(m.log, RollbackStarted)
    ensures m.deployment.phase == Disabled <==> Has(m.log, RollbackCompleted)
    ensures m.deployment.phase == PausedFault <==> Has(m.log, FaultPaused)
  {
    hide EvidenceOk, NonBlank, StrictlySorted, DistinctIds, FaultPayloadAccepted, IsRollbackFlat, CreatedId, ActivationId, EvidenceEventId, StartedId, CompletedId,
      NotBeforeEvidence, AfterEvidence;
    var d := m.deployment;
    assert IsCausal(CreatedEvent(d), m);
    if d.activationAt.Some? { assert IsCausal(ActivationEvent(d), m); }
    forall n | 1 <= n <= |m.evidence| ensures HasVersion(m.log, n) {
      var e := AdvancedEvent(d, m.evidence[n - 1], n - 1, RecordPhase(m, n - 1));
      assert IsCausal(e, m);
      assert e in m.log;
    }
    if m.shape.rollback.Some? { assert IsCausal(StartedEvent(d, m.shape.rollback.value, m.shape.boundary), m); }
    if m.shape.ending.Completed? { assert IsCausal(CompletedEvent(d, d.updatedAt, m.shape.ending.from, |m.evidence|), m); }
    if m.shape.ending.Faulted? { assert IsCausal(m.shape.ending.fault, m); }
  }
}
