/**
 The records of a pilot deployment: its row, its execution evidence and its append-only audit log,
 with the canonical form of each audit event.

 Payload texts are canonical JSON and are kept as the values they denote; a material hash is kept as
 what was hashed.
 */
module PilotAudit {
  import opened Basics
  import opened DecimalText
  import opened KeyOrder
  import opened CandidateReplay

  datatype Phase = Disabled | PendingFlat | Active | PausedFault | Draining

  datatype EventType =
    | DeploymentCreated | StateAdvanced | PhaseTransition | FaultPaused | RollbackStarted | RollbackCompleted

  datatype Deployment = Deployment(
    id: string,
    exchangeAccountId: string,
    phase: Phase,
    activationAt: Option<Timestamp>,
    activationEpochNs: Option<int>,
    createdAt: Timestamp,
    updatedAt: Timestamp)

  datatype MaterialHash = HashOf(deploymentId: string, evidence: Evidence) | OtherHash(digest: string)

  datatype MaterialVersion = ExactV2 | OtherVersion

  datatype EvidenceRecord = EvidenceRecord(evidence: Evidence, materialHash: MaterialHash, materialVersion: MaterialVersion)

  datatype FaultReason =
    | SnapshotProvenanceInvalid | StaleSnapshot | IdentityMismatch | ReplayMismatch | InventoryMismatch
    | BlockingReconciliation | ActiveOrder | UncertainOrder | ActivationCasConflict
    | UnlistedReason(code: string)

  datatype JsonKind = NotJson | JsonObject | OtherJson

  datatype Payload =
    | CreationPayload
    | ActivationPayload(activationAt: Timestamp, activationEpochNs: int)
    | AdvancePayload(evidenceId: string, materialHash: MaterialHash, materialVersion: MaterialVersion, fromVersion: int, toVersion: int)
    | TransitionPayload(transitionAt: Timestamp)
    | FaultPayload(reason: FaultReason, provenance: string, provenanceKind: JsonKind)
    | OtherPayload(text: string, kind: JsonKind)

  datatype AuditEvent = AuditEvent(
    id: string,
    deploymentId: string,
    eventType: EventType,
    fromPhase: Option<Phase>,
    toPhase: Option<Phase>,
    stateVersion: int,
    payload: Payload,
    createdAt: Timestamp)

  function EventKey(e: AuditEvent): Key { Key(e.createdAt.epochNs, e.id) }

  function RecordKey(r: EvidenceRecord): Key { EvidenceKey(r.evidence) }

  function RecordAt(r: EvidenceRecord): int { r.evidence.executedAt.epochNs }

  /** Something besides blanks. */
  predicate NonBlank(s: string) {
    exists i :: 0 <= i < |s| && s[i] !in {' ', '\t', '\n', '\r'}
  }

  predicate IsSell(action: Action) { !IsBuy(action) }

  predicate DistinctIds(log: seq<AuditEvent>) {
    forall i, j :: 0 <= i < j < |log| ==> log[i].id != log[j].id
  }

  /** The log with an event taken out. */
  function Without(log: seq<AuditEvent>, e: AuditEvent): (r: seq<AuditEvent>)
    ensures |r| <= |log|
  {
    if log == [] then []
    else if log[0] == e then Without(log[1..], e)
    else [log[0]] + Without(log[1..], e)
  }

  /** The conditions under which candidateEvidenceMaterial yields a material. */
  predicate MaterialAccepted(e: Evidence) {
    && CanonicalEvidence(e)
    && NonBlank(e.evidenceId)
    && (if IsFill(e) then e.grossQuoteValue != "0"
        else e.terminalStatus.Canceled? && e.grossQuoteValue == "0" && e.confirmedFee == "0")
    && e.executedAt.epochNs >= 0
  }

  predicate RecordValid(r: EvidenceRecord, deploymentId: string) {
    MaterialAccepted(r.evidence) && r.materialVersion.ExactV2? && r.materialHash == HashOf(deploymentId, r.evidence)
  }

  function Items(records: seq<EvidenceRecord>): seq<Evidence> {
    seq(|records|, i requires 0 <= i < |records| => records[i].evidence)
  }

  // ---------------------------------------------------------------------------------------------
  // Canonical events
  // ---------------------------------------------------------------------------------------------

  function EpochText(n: int): string {
    if n < 0 then "-" + Digits(-n) else Digits(n)
  }

  function CreatedId(deploymentId: string): string { deploymentId + ":created" }
  function ActivationId(deploymentId: string, epochNs: int): string { deploymentId + (":activation:" + EpochText(epochNs)) }
  function EvidenceEventId(deploymentId: string, evidenceId: string): string { deploymentId + (":evidence:" + evidenceId) }
  function StartedId(deploymentId: string, epochNs: int): string { deploymentId + (":rollback_started:" + EpochText(epochNs)) }
  function CompletedId(deploymentId: string, epochNs: int): string { deploymentId + (":rollback_completed:" + EpochText(epochNs)) }

  function CreatedEvent(d: Deployment): AuditEvent {
    AuditEvent(CreatedId(d.id), d.id, DeploymentCreated, None, Some(PendingFlat), 0, CreationPayload, d.createdAt)
  }

  function ActivationEvent(d: Deployment): AuditEvent
    requires d.activationAt.Some? && d.activationEpochNs.Some?
  {
    var at, epoch := d.activationAt.value, d.activationEpochNs.value;
    AuditEvent(ActivationId(d.id, epoch), d.id, PhaseTransition, Some(PendingFlat), Some(Active), 0, ActivationPayload(at, epoch), at)
  }

  function AdvancedEvent(d: Deployment, r: EvidenceRecord, index: nat, phase: Phase): AuditEvent {
    AuditEvent(EvidenceEventId(d.id, r.evidence.evidenceId), d.id, StateAdvanced, Some(phase), Some(phase), index + 1,
      AdvancePayload(r.evidence.evidenceId, r.materialHash, r.materialVersion, index, index + 1), r.evidence.executedAt)
  }

  function StartedEvent(d: Deployment, at: Timestamp, version: int): AuditEvent {
    AuditEvent(StartedId(d.id, at.epochNs), d.id, RollbackStarted, Some(Active), Some(Draining), version, TransitionPayload(at), at)
  }

  function CompletedEvent(d: Deployment, at: Timestamp, from: Phase, version: int): AuditEvent {
    AuditEvent(CompletedId(d.id, at.epochNs), d.id, RollbackCompleted, Some(from), Some(Disabled), version, TransitionPayload(at), at)
  }

  function FaultEvent(d: Deployment, id: string, at: Timestamp, from: Phase, version: int, payload: Payload): AuditEvent {
    AuditEvent(id, d.id, FaultPaused, Some(from), Some(PausedFault), version, payload, at)
  }

  predicate FaultPayloadAccepted(p: Payload) {
    p.FaultPayload? && !p.reason.UnlistedReason? && p.provenanceKind.JsonObject?
  }

  /** How identifiers of one deployment sort at one instant. */
  lemma IdentifierTieBreaks(d: string, evidenceId: string, a: int, s: int, c: int)
    ensures LexLess(ActivationId(d, a), CreatedId(d))
    ensures LexLess(ActivationId(d, a), StartedId(d, s))
    ensures LexLess(CreatedId(d), EvidenceEventId(d, evidenceId))
    ensures LexLess(EvidenceEventId(d, evidenceId), CompletedId(d, c))
    ensures LexLess(CompletedId(d, c), StartedId(d, s))
  {
    var activation, created := ":activation:" + EpochText(a), ":created";
    var evidence := ":evidence:" + evidenceId;
    var started, completed := ":rollback_started:" + EpochText(s), ":rollback_completed:" + EpochText(c);
    LexCommonPrefix(d, activation, created);
    LexCommonPrefix(d, activation, started);
    LexCommonPrefix(d, created, evidence);
    LexCommonPrefix(d, evidence, completed);
    LexCommonPrefix(d, completed, started);
    FirstDifference(":", activation, created);
    FirstDifference(":", activation, started);
    FirstDifference(":", created, evidence);
    FirstDifference(":", evidence, completed);
    FirstDifference(":rollback_", completed, started);
  }

  /** Two texts with a common beginning compare by the character after it. */
  lemma FirstDifference(p: string, a: string, b: string)
    requires p <= a && p <= b && |a| > |p| && |b| > |p| && a[|p|] < b[|p|]
    ensures LexLess(a, b)
  {
    LexCommonPrefix(p, a[|p|..], b[|p|..]);
    assert p + a[|p|..] == a && p + b[|p|..] == b;
  }

  lemma EvidenceIdInjective(d: string, a: string, b: string)
    ensures EvidenceEventId(d, a) == EvidenceEventId(d, b) ==> a == b
    ensures LexLess(EvidenceEventId(d, a), EvidenceEventId(d, b)) <==> LexLess(a, b)
  {
    LexCommonPrefix(d, ":evidence:" + a, ":evidence:" + b);
    LexCommonPrefix(":evidence:", a, b);
    LexCommonPrefix(d, ":evidence:" + b, ":evidence:" + a);
    LexCommonPrefix(":evidence:", b, a);
    LexTotal(a, b);
    LexTotal(EvidenceEventId(d, a), EvidenceEventId(d, b));
  }

  lemma CanonicalIdsNonBlank(d: string, evidenceId: string, a: int)
    ensures NonBlank(CreatedId(d)) && NonBlank(ActivationId(d, a)) && NonBlank(EvidenceEventId(d, evidenceId))
    ensures NonBlank(StartedId(d, a)) && NonBlank(CompletedId(d, a))
  {
    assert CreatedId(d)[|d|] == ':';
    assert ActivationId(d, a)[|d|] == ':';
    assert EvidenceEventId(d, evidenceId)[|d|] == ':';
    assert StartedId(d, a)[|d|] == ':';
    assert CompletedId(d, a)[|d|] == ':';
  }
}
