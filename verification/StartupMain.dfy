/** The characterisation of the start-up validator, and what it implies for draining. */
module StartupMain {
  import opened Basics
  import opened ExactDecimals
  import opened KeyOrder
  import opened CandidateReplay
  import opened PilotAudit
  import opened PilotMachine
  import opened PilotReachability
  import opened StartupValidator
  import opened StartupLogs
  import opened StartupTheorem
  import opened RoutableStates
  import LedgerLaws

  // ---------------------------------------------------------------------------------------------
  // A completed rollback
  // ---------------------------------------------------------------------------------------------

  lemma ExpectedOfShaped(m: Machine)
    requires WellShaped(m)
    ensures forall t :: OfType(m.log, t) == Expected(m, t)
  {
    hide IsCausal, OfType, Expected, Replay, RecordValid, NonBlank;
    LogOkIffExpected(m);
  }

  lemma {:induction false} OfTypeWithout(log: seq<AuditEvent>, e: AuditEvent, t: EventType)
    requires e.eventType != t
    ensures OfType(Without(log, e), t) == OfType(log, t)
  {
    if log != [] { OfTypeWithout(log[1..], e, t); }
  }

  /** At the instant of the completion, everything else sorts before it. */
  lemma BeforeCompletion(m: Machine, e: AuditEvent)
    requires ActivationOk(m.deployment) && StrictlySorted(m.evidence, RecordKey) && RollbackOk(m) && EndingOk(m)
    requires m.shape.ending.Completed? && IsCausal(e, m)
    ensures var c := CompletedEvent(m.deployment, m.deployment.updatedAt, m.shape.ending.from, |m.evidence|);
            e == c || KeyLess(EventKey(e), EventKey(c))
  {
    hide LexLess, StrictlySorted, IsRollbackFlat, CreatedId, ActivationId, EvidenceEventId, StartedId, CompletedId;
    var d, at := m.deployment, m.deployment.updatedAt.epochNs;
    var evidenceId := if e.payload.AdvancePayload? then e.payload.evidenceId else "";
    var a := if d.activationEpochNs.Some? then d.activationEpochNs.value else 0;
    IdentifierTieBreaks(d.id, evidenceId, a, 0, at);
    LexTransitive(CreatedId(d.id), EvidenceEventId(d.id, evidenceId), CompletedId(d.id, at));
    LexTransitive(ActivationId(d.id, a), CreatedId(d.id), CompletedId(d.id, at));
    if e.eventType.StateAdvanced? { LastIsLatest(m, e.stateVersion - 1); }
  }

  lemma CompletionIsLast(m: Machine)
    requires WellShaped(m) && m.shape.ending.Completed?
    ensures m.log != [] && m.log[|m.log| - 1] == EndingEvent(m)
  {
    hide IsCausal, EventKey, KeyLess, Replay, RecordValid, NonBlank, CompletedId, EndingOk, RollbackOk;
    var c := EndingEvent(m);
    ReopenCausal(m, c);
    var i :| 0 <= i < |m.log| && m.log[i] == c;
    var last := m.log[|m.log| - 1];
    BeforeCompletion(m, last);
    KeyTotal(EventKey(c), EventKey(last));
  }

  lemma PredecessorOfShaped(m: Machine)
    requires WellShaped(m) && m.shape.ending.Completed?
    ensures PredecessorAccepted(m.deployment, m.state, m.evidence, Without(m.log, EndingEvent(m)), Some(m.shape.ending.from), m.deployment.updatedAt.epochNs)
  {
    hide IsCausal, Replay, RecordValid, NonBlank, CompletedId, LogOk, IsRollbackFlat, Retained, Without, StrictlySorted, OfType, Apply, NotBeforeEvidence;
    var before, _ := UnEnd(m);
    match m.shape.ending.from
    case PendingFlat =>
      PendingIsBare(m);
      BareIsCreated(before);
      ExpectedOfShaped(before);
      ExpectedHeads(before);
    case Active => RetainedOfShaped(before);
    case Draining =>
      RetainedOfShaped(before);
      ExpectedOfShaped(before);
      ExpectedHeads(before);
    case _ =>
  }

  lemma DisabledOfShaped(m: Machine)
    requires WellShaped(m) && m.shape.ending.Completed?
    ensures DisabledAccepted(m.deployment, m.state, m.evidence, m.log)
  {
    hide IsCausal, Replay, RecordValid, NonBlank, CompletedId, LogOk, IsRollbackFlat, Without, StrictlySorted, OfType, PredecessorAccepted;
    ExpectedOfShaped(m);
    ExpectedHeads(m);
    VersionOfShaped(m);
    CompletionIsLast(m);
    PredecessorOfShaped(m);
  }

  // ---------------------------------------------------------------------------------------------
  // From a completed rollback back to the machine
  // ---------------------------------------------------------------------------------------------

  /** The checks that hold of every accepted deployment, whatever its phase. */
  ghost predicate Common(d: Deployment, state: ExactState, evidence: seq<EvidenceRecord>, log: seq<AuditEvent>) {
    && NonBlank(d.id) && NonBlank(d.exchangeAccountId)
    && ActivationOk(d)
    && BaseEvidence(d, state, evidence)
    && StrictlySorted(log, EventKey) && DistinctIds(log)
    && (forall e :: e in log ==> e.deploymentId == d.id && NonBlank(e.id) && e.stateVersion <= state.stateVersion)
    && CreationAccepted(d, log)
    && d.createdAt.epochNs <= d.updatedAt.epochNs
    && (d.activationAt.Some? ==> d.activationAt.value.epochNs <= d.updatedAt.epochNs)
  }

  /** Before the completion: the same rows with another phase and update, and a log without the completion. */
  lemma BaseBefore(d: Deployment, d': Deployment, state: ExactState, evidence: seq<EvidenceRecord>, log: seq<AuditEvent>, c: AuditEvent)
    requires Common(d, state, evidence, log) && c in log && c.eventType.RollbackCompleted?
    requires d' == d.(phase := d'.phase, updatedAt := d'.updatedAt) && d.activationAt.Some?
    requires d'.phase.Active? || d'.phase.Draining?
    ensures Base(d', state, evidence, Without(log, c))
  {
    hide RecordValid, NonBlank, OfType, StrictlySorted, Replay, CreatedId;
    WithoutSorted(log, c);
    OfTypeWithout(log, c, DeploymentCreated);
    forall e | e in Without(log, c) ensures e in log { WithoutMembers(log, c, e); }
  }

  /** Completing again from a well-shaped open machine. */
  lemma CompleteAgain(m: Machine, d: Deployment, log: seq<AuditEvent>, c: AuditEvent)
    requires WellShaped(m) && m.shape.ending.Open? && IsRollbackFlat(m.state)
    requires d == m.deployment.(phase := Disabled, updatedAt := c.createdAt)
    requires StrictlySorted(log, EventKey) && DistinctIds(log) && c in log && m.log == Without(log, c)
    requires c == CompletedEvent(m.deployment, c.createdAt, m.deployment.phase, m.state.stateVersion)
    requires c.createdAt.epochNs >= m.deployment.updatedAt.epochNs && LastNotAfter(m.evidence, c.createdAt.epochNs)
    requires m.shape.rollback.Some? ==> c.createdAt.epochNs > m.shape.rollback.value.epochNs
    ensures WellShaped(Machine(d, m.evidence, m.state, log, m.shape.(ending := Completed(m.deployment.phase))))
  {
    hide WellShaped, StrictlySorted, DistinctIds, CompletedId, IsRollbackFlat, Emit, Without, Fresh;
    EmitWithout(log, c);
    OpenFacts(m);
    CompleteKeepsShape(m, c.createdAt, Machine(d, m.evidence, m.state, log, m.shape.(ending := Completed(m.deployment.phase))));
  }

  lemma OpenFacts(m: Machine)
    requires WellShaped(m) && m.shape.ending.Open?
    ensures m.state.stateVersion == |m.evidence|
    ensures m.deployment.phase == OpenPhase(m)
  {
    hide LogOk, EvidenceOk, RollbackOk, NonBlank;
    VersionOfShaped(m);
  }

  lemma {:induction false} SingleEvent(log: seq<AuditEvent>, e: AuditEvent)
    requires |log| == 1 && OfType(log, DeploymentCreated) == [e]
    ensures log == [e]
  {
    assert OfType(log[1..], DeploymentCreated) == [];
  }

  /** The completion event of a deployment that passed assertDisabledLifecycleAuthority. */
  function Completion(log: seq<AuditEvent>): AuditEvent
    requires OfType(log, RollbackCompleted) != []
  {
    OfType(log, RollbackCompleted)[0]
  }

  lemma CompletionIs(d: Deployment, state: ExactState, evidence: seq<EvidenceRecord>, log: seq<AuditEvent>)
    requires DisabledAccepted(d, state, evidence, log)
    ensures OfType(log, RollbackCompleted) != []
    ensures var c := Completion(log);
            && c in log && c.eventType.RollbackCompleted? && c.fromPhase.Some?
            && c == CompletedEvent(d, d.updatedAt, c.fromPhase.value, state.stateVersion)
            && PredecessorAccepted(d, state, evidence, Without(log, c), c.fromPhase, d.updatedAt.epochNs)
            && LastNotAfter(evidence, d.updatedAt.epochNs) && IsRollbackFlat(state)
  {
    hide OfType, Without, LastNotAfter, IsRollbackFlat, CompletedId, Retained;
    OfTypeMembers(log, RollbackCompleted, Completion(log));
  }

  /** The deployment as it was before the completion, from the phase it completed. */
  function BeforeCompleted(d: Deployment, from: Phase, before: seq<AuditEvent>): Deployment {
    if from.Active? && d.activationAt.Some? then d.(phase := Active, updatedAt := d.activationAt.value)
    else if from.Draining? && OfType(before, RollbackStarted) != [] then
      d.(phase := Draining, updatedAt := OfType(before, RollbackStarted)[0].createdAt)
    else d.(phase := PendingFlat, updatedAt := d.createdAt)
  }

  lemma ShapedBefore(d: Deployment, state: ExactState, evidence: seq<EvidenceRecord>, log: seq<AuditEvent>, c: AuditEvent, from: Phase) returns (m: Machine)
    requires Common(d, state, evidence, log) && c in log && c.eventType.RollbackCompleted?
    requires PredecessorAccepted(d, state, evidence, Without(log, c), Some(from), c.createdAt.epochNs)
    ensures WellShaped(m) && m.shape.ending.Open? && m.deployment.phase == from
    ensures m == Machine(BeforeCompleted(d, from, Without(log, c)), evidence, state, Without(log, c), m.shape)
    ensures d.createdAt.epochNs <= c.createdAt.epochNs ==> m.deployment.updatedAt.epochNs <= c.createdAt.epochNs
    ensures m.shape.rollback.Some? ==> c.createdAt.epochNs > m.shape.rollback.value.epochNs
  {
    var before := Without(log, c);
    var d' := BeforeCompleted(d, from, before);
    hide NonBlank, OfType, Without, Retained, BaseEvidence, DistinctIds, StrictlySorted, WellShaped, CreatedId;
    match from
    case PendingFlat =>
      m := Created(d.id, d.exchangeAccountId, d.createdAt);
      SingleEvent(before, CreatedEvent(d));
      CreatedIsShaped(d.id, d.exchangeAccountId, d.createdAt);
      assert d' == m.deployment;
    case Active =>
      BaseBefore(d, d', state, evidence, log, c);
      ShapedOfRetained(d', state, evidence, before);
      m := MachineOf(d', state, evidence, before);
      OpenShape(m);
    case Draining =>
      DrainingActivated(d', state, evidence, before);
      BaseBefore(d, d', state, evidence, log, c);
      ShapedOfRetained(d', state, evidence, before);
      m := MachineOf(d', state, evidence, before);
      OpenShape(m);
  }

  lemma ShapedOfDisabled(d: Deployment, state: ExactState, evidence: seq<EvidenceRecord>, log: seq<AuditEvent>) returns (shape: Shape)
    requires Common(d, state, evidence, log) && d.phase.Disabled? && DisabledAccepted(d, state, evidence, log)
    ensures WellShaped(Machine(d, evidence, state, log, shape))
  {
    hide PredecessorAccepted, DisabledAccepted, NonBlank, Without, BaseEvidence, DistinctIds, StrictlySorted, WellShaped, LastNotAfter, IsRollbackFlat,
      CompletedId, OfType, CreationAccepted;
    CompletionIs(d, state, evidence, log);
    var c := Completion(log);
    var m := ShapedBefore(d, state, evidence, log, c, c.fromPhase.value);
    CompleteAgain(m, d, log, c);
    shape := m.shape.(ending := Completed(m.deployment.phase));
  }

  lemma DrainingActivated(d: Deployment, state: ExactState, evidence: seq<EvidenceRecord>, log: seq<AuditEvent>)
    requires Retained(d, state, evidence, log) && d.phase.Draining?
    ensures d.activationAt.Some?
  {
    hide OfType, PrecedingCount, StateEventsAccepted, ActivationAccepted;
  }

  /** An active or draining machine is open, and its last move is the activation or the rollback start. */
  lemma OpenShape(m: Machine)
    requires WellShaped(m) && (m.deployment.phase.Active? || m.deployment.phase.Draining?)
    ensures m.shape.ending.Open? && m.deployment.updatedAt == OpenUpdatedAt(m) && m.deployment.phase == OpenPhase(m)
  {
    hide LogOk, EvidenceOk, RollbackOk, NonBlank;
  }

  // ---------------------------------------------------------------------------------------------
  // The theorem
  // ---------------------------------------------------------------------------------------------

  /** The rows and the log are what some run of the machine left. */
  ghost predicate LeftByRun(a: Authority) {
    exists shape :: Reachable(Machine(a.deployment, a.evidence, a.exactState, a.events, shape))
  }

  predicate NothingLater(log: seq<AuditEvent>, now: Timestamp) {
    forall e :: e in log ==> e.createdAt.epochNs <= now.epochNs
  }

  /** The conditions that do not concern the life of the deployment: the configured identity, a state that can be read back, and nothing in the future. */
  ghost predicate Admissible(a: Authority, c: Context) {
    && a.deployment.id == c.deploymentId && a.deployment.exchangeAccountId == c.exchangeAccountId
    && Readable(a.exactState)
    && NothingLater(a.events, c.now)
  }

  lemma CommonOfAccepts(a: Authority, c: Context)
    requires Accepts(a, c)
    ensures Common(a.deployment, a.exactState, a.evidence, a.events)
  {
    hide Routable, Project, LifecycleAccepted, RecordValid, NonBlank, CreationAccepted, KeyLess, Replay, OutcomeAccepted, RecordKey, EventKey;
    ScanSuffices(a.evidence, RecordKey);
    ScanSuffices(a.events, EventKey);
    ProjectSorted(a.evidence);
    assert forall i :: 0 <= i < |a.evidence| ==> RecordAccepted(a.evidence[i], a.deployment, c.now);
    if a.evidence != [] { assert RecordAccepted(a.evidence[0], a.deployment, c.now); }
  }

  lemma ShapedOfAccepts(a: Authority, c: Context) returns (shape: Shape)
    requires Accepts(a, c)
    ensures WellShaped(Machine(a.deployment, a.evidence, a.exactState, a.events, shape))
  {
    CommonOfAccepts(a, c);
    var d := a.deployment;
    hide RecordValid, NonBlank, Replay, CreatedId, Retained, BaseEvidence, DistinctIds, StrictlySorted, WellShaped, ShapeOf, Routable, Project,
      EvidenceAccepted, EventsAccepted, DisabledAccepted, CreatedEvent;
    match d.phase
    case Disabled => shape := ShapedOfDisabled(d, a.exactState, a.evidence, a.events);
    case PendingFlat =>
      var m := Created(d.id, d.exchangeAccountId, d.createdAt);
      SingleEvent(a.events, CreatedEvent(d));
      CreatedIsShaped(d.id, d.exchangeAccountId, d.createdAt);
      shape := m.shape;
    case _ =>
      ShapedOfRetained(d, a.exactState, a.evidence, a.events);
      shape := ShapeOf(a.evidence, a.events);
  }

  lemma NothingLaterOfAccepts(a: Authority, c: Context)
    requires Accepts(a, c)
    ensures NothingLater(a.events, c.now)
  {
    hide Routable, Project, LifecycleAccepted, EvidenceAccepted, DeploymentAccepted, CreationAccepted, NonBlank, KeyLess, EventKey;
  }

  // ---------------------------------------------------------------------------------------------

  lemma EventsOfShaped(m: Machine, now: Timestamp)
    requires WellShaped(m) && NothingLater(m.log, now)
    ensures EventsAccepted(m.log, m.deployment, m.state, now)
  {
    hide Replay, RecordValid, KeyLess, EventKey, RecordKey;
    ScanSuffices(m.log, EventKey);
    VersionOfShaped(m);
    forall i | 0 <= i < |m.log| ensures EventAccepted(m.log[i], m.deployment, m.state, now) {
      assert m.log[i] in m.log;
      CausalEventAccepted(m, m.log[i]);
    }
  }

  /** Every canonical event passes the scan, but for the clock. */
  lemma CausalEventAccepted(m: Machine, e: AuditEvent)
    requires ActivationOk(m.deployment) && EvidenceOk(m) && RollbackOk(m) && EndingOk(m) && m.state.stateVersion == |m.evidence| && IsCausal(e, m)
    ensures NonBlank(e.id) && e.deploymentId == m.deployment.id && 0 <= e.stateVersion <= m.state.stateVersion && PayloadIsJson(e.payload)
    ensures m.deployment.createdAt.epochNs <= e.createdAt.epochNs
  {
    hide Replay, RecordValid, StrictlySorted, NonBlank, IsFill, IsRollbackFlat, CreatedId, ActivationId, EvidenceEventId, StartedId, CompletedId;
    CanonicalIdsNonBlank(m.deployment.id, if e.payload.AdvancePayload? then e.payload.evidenceId else "", e.createdAt.epochNs);
  }

  lemma EvidenceOfShaped(m: Machine, now: Timestamp)
    requires WellShaped(m) && NothingLater(m.log, now)
    ensures EvidenceAccepted(m.evidence, m.deployment, now)
  {
    hide Replay, RecordValid, KeyLess, EventKey, RecordKey, NonBlank, ActivationId, CreatedId, EvidenceEventId;
    ScanSuffices(m.evidence, RecordKey);
    forall i | 0 <= i < |m.evidence| ensures RecordAccepted(m.evidence[i], m.deployment, now) { RecordEventInLog(m, i); }
    forall i, j | 0 <= i < j < |m.evidence| ensures m.evidence[i].evidence.evidenceId != m.evidence[j].evidence.evidenceId {
      RecordEventInLog(m, i);
      RecordEventInLog(m, j);
      IdsDecide(m.log, StateEvents(m)[i], StateEvents(m)[j]);
    }
  }

  lemma RecordEventInLog(m: Machine, i: nat)
    requires LogOk(m) && i < |m.evidence|
    ensures StateEvents(m)[i] in m.log
  {
    hide EvidenceEventId;
    assert IsCausal(StateEvents(m)[i], m);
  }

  /** The last move of the deployment has left an event of its instant. */
  lemma UpdateInLog(m: Machine) returns (e: AuditEvent)
    requires WellShaped(m)
    ensures e in m.log && e.createdAt == m.deployment.updatedAt
    ensures m.deployment.createdAt.epochNs <= m.deployment.updatedAt.epochNs
    ensures m.deployment.activationAt.Some? ==> m.deployment.activationAt.value.epochNs <= m.deployment.updatedAt.epochNs
  {
    hide Replay, RecordValid, StrictlySorted, NonBlank, IsFill, IsRollbackFlat, CreatedId, ActivationId, EvidenceEventId, StartedId, CompletedId,
      FaultPayloadAccepted, NotBeforeEvidence, AfterEvidence;
    var d := m.deployment;
    e := match m.shape.ending
      case Faulted(f) => f
      case Completed(from) => CompletedEvent(d, d.updatedAt, from, |m.evidence|)
      case Open =>
        if d.activationAt.None? then CreatedEvent(d)
        else if m.shape.rollback.None? then ActivationEvent(d)
        else StartedEvent(d, m.shape.rollback.value, m.shape.boundary);
    assert IsCausal(e, m);
  }

  lemma DeploymentOfShaped(m: Machine, c: Context)
    requires WellShaped(m) && NothingLater(m.log, c.now)
    requires m.deployment.id == c.deploymentId && m.deployment.exchangeAccountId == c.exchangeAccountId
    ensures DeploymentAccepted(m.deployment, c)
  {
    var e := UpdateInLog(m);
    hide LogOk, EvidenceOk, NonBlank, IsRollbackFlat, EndedAt, FaultPayloadAccepted;
  }

  lemma LifecycleOfShaped(a: Authority, m: Machine)
    requires WellShaped(m) && m == Machine(a.deployment, a.evidence, a.exactState, a.events, m.shape)
    ensures CreationAccepted(a.deployment, a.events) && LifecycleAccepted(a)
  {
    hide IsCausal, LogOk, NonBlank, RecordValid, StrictlySorted, Retained, DisabledAccepted, OfType, CreatedEvent, IsRollbackFlat, EndedAt;
    ExpectedOfShaped(m);
    ExpectedHeads(m);
    if m.shape.ending.Completed? {
      DisabledOfShaped(m);
    } else if m.deployment.phase.PendingFlat? {
      BareIsCreated(m);
    } else {
      RetainedOfShaped(m);
    }
  }

  lemma RoutableOfShaped(m: Machine)
    requires WellShaped(m)
    ensures Routable(m.state) <==> Readable(m.state)
  {
    hide LogOk, Routable, Readable, Replay, RecordValid, NonBlank, StrictlySorted, EndingOk, RollbackOk;
    RoutableOfRecords(m.evidence, m.deployment.id, m.state);
  }

  /**
   The start-up validator accepts the rows exactly when a run of the machine left them, the identity is
   the configured one, nothing lies in the future, the profits of the final state can be read back and
   its quantity is zero or above the tolerance; a deployment that this start has created must besides be
   pending and of this very instant.
   */
  lemma AcceptsIffLeftByRun(a: Authority, c: Context)
    ensures Accepts(a, c) <==>
              && LeftByRun(a)
              && a.deployment.id == c.deploymentId && a.deployment.exchangeAccountId == c.exchangeAccountId
              && (forall e :: e in a.events ==> e.createdAt.epochNs <= c.now.epochNs)
              && (LedgerLaws.Amount(a.exactState.realizedPnl) == 0.0 || Abs(LedgerLaws.Amount(a.exactState.realizedPnl)) >= 1.0)
              && (a.exactState.lastFullExitPnl.Some? ==>
                    LedgerLaws.Amount(a.exactState.lastFullExitPnl.value) == 0.0 || Abs(LedgerLaws.Amount(a.exactState.lastFullExitPnl.value)) >= 1.0)
              && (LedgerLaws.Amount(a.exactState.inventory) == 0.0 || LedgerLaws.Amount(a.exactState.inventory) > 0.000000000001)
              && (a.outcome == CreatedOutcome ==> a.deployment.phase == PendingFlat && a.deployment.createdAt == a.deployment.updatedAt == c.now)
  {
    hide Accepts, LeftByRun, LedgerLaws.Amount, Abs;
    AcceptsIffAdmissible(a, c);
  }

  /** A restart, or the start that creates the deployment. */
  lemma AcceptsIffAdmissible(a: Authority, c: Context)
    ensures a.outcome == ExistingOutcome ==> (Accepts(a, c) <==> LeftByRun(a) && Admissible(a, c))
    ensures a.outcome == CreatedOutcome ==>
              (Accepts(a, c) <==> LeftByRun(a) && Admissible(a, c) && a.deployment.phase == PendingFlat && a.deployment.createdAt == a.deployment.updatedAt == c.now)
  {
    hide Reachable, WellShaped, Routable, Readable, NothingLater, EvidenceAccepted, EventsAccepted, LifecycleAccepted, Project,
      CreationAccepted, NonBlank;
    if Accepts(a, c) {
      var shape := ShapedOfAccepts(a, c);
      NothingLaterOfAccepts(a, c);
      RoutableOfShaped(Machine(a.deployment, a.evidence, a.exactState, a.events, shape));
      ReachableIffShaped(Machine(a.deployment, a.evidence, a.exactState, a.events, shape));
    }
    if LeftByRun(a) && Admissible(a, c) && OutcomeAccepted(a, c) {
      var shape :| Reachable(Machine(a.deployment, a.evidence, a.exactState, a.events, shape));
      AcceptsOfShaped(a, c, shape);
    }
  }

  lemma AcceptsOfShaped(a: Authority, c: Context, shape: Shape)
    requires Reachable(Machine(a.deployment, a.evidence, a.exactState, a.events, shape)) && Admissible(a, c) && OutcomeAccepted(a, c)
    ensures Accepts(a, c)
  {
    hide Reachable, Routable, Readable, OutcomeAccepted, NothingLater, EvidenceAccepted, EventsAccepted, LifecycleAccepted, Project, CreationAccepted,
      DeploymentAccepted, LogOk, RecordValid, NonBlank, Replay, StrictlySorted, IsFill, ActivationOk, RollbackOk, EndingOk;
    var m := Machine(a.deployment, a.evidence, a.exactState, a.events, shape);
    ReachableIffShaped(m);
    ProjectSorted(m.evidence);
    RoutableOfShaped(m);
    EvidenceOfShaped(m, c.now);
    EventsOfShaped(m, c.now);
    DeploymentOfShaped(m, c);
    LifecycleOfShaped(a, m);
  }

  // ---------------------------------------------------------------------------------------------
  // Draining
  // ---------------------------------------------------------------------------------------------

  lemma ReplayPrefix(history: seq<Evidence>, i: nat)
    requires Replay(history).Some? && i <= |history|
    ensures Replay(history[..i]).Some?
  {
    if Replay(history[..i]).None? { ReplayFailsOnward(history, i); }
  }

  /** The two states around a record of a replayed history. */
  lemma AroundRecord(history: seq<Evidence>, i: nat) returns (before: ExactState, after: ExactState)
    requires Replay(history).Some? && i < |history|
    ensures Replay(history[..i]) == Some(before) && Replay(history[..i + 1]) == Some(after)
    ensures Advance(before, history[i]) == Some(after) && LedgerLaws.Coherent(before)
  {
    hide Advance;
    ReplayPrefix(history, i);
    ReplayPrefix(history, i + 1);
    assert history[..i + 1][..i] == history[..i];
    before, after := Replay(history[..i]).value, Replay(history[..i + 1]).value;
    LedgerLaws.CashConservation(history[..i], before);
  }

  /** In the log a record stands after the rollback start exactly when it is later; then it is a sell. */
  lemma DrainingInLog(m: Machine, start: AuditEvent, i: nat)
    requires WellShaped(m) && start in m.log && start.eventType.RollbackStarted? && i < |m.evidence|
    ensures StateEvents(m)[i] in m.log && IsFill(m.evidence[i].evidence)
    ensures IndexOf(m.log, start) < IndexOf(m.log, StateEvents(m)[i]) <==> RecordAt(m.evidence[i]) > start.createdAt.epochNs
    ensures RecordAt(m.evidence[i]) > start.createdAt.epochNs ==> IsSell(m.evidence[i].evidence.action)
  {
    hide Replay, RecordValid, NonBlank, IsRollbackFlat, EventKey, KeyLess, EndingOk, EvidenceEventId, IndexOf, IsBuy, IsFill;
    var e := StateEvents(m)[i];
    RecordEventInLog(m, i);
    assert IsCausal(start, m);
    KeyTotal(EventKey(e), EventKey(start));
    IndexOrder(m.log, start, e);
    BeforeStart(m.deployment, m.evidence[i], i, RecordPhase(m, i), start.createdAt, start.stateVersion);
    TypesDiffer(m.log, e, start);
  }

  lemma TypesDiffer(log: seq<AuditEvent>, x: AuditEvent, y: AuditEvent)
    requires StrictlySorted(log, EventKey) && DistinctIds(log) && x in log && y in log && x.eventType != y.eventType
    ensures EventKey(x) != EventKey(y)
  {
    IdsDecide(log, x, y);
  }

  /**
   In an accepted log every record is a fill. Once rollback has started, a record stands after the
   start in the log exactly when it is strictly later; then it is a sell, the position is open before
   it, and strictly smaller after it. So nothing follows once the position is flat.
   */
  lemma DrainingSafety(a: Authority, c: Context, start: AuditEvent, i: nat) returns (e: AuditEvent, before: ExactState, after: ExactState)
    requires Accepts(a, c) && start in a.events && start.eventType.RollbackStarted? && i < |a.evidence|
    ensures IsFill(a.evidence[i].evidence)
    ensures e in a.events && e.id == EvidenceEventId(a.deployment.id, a.evidence[i].evidence.evidenceId)
    ensures IndexOf(a.events, start) < IndexOf(a.events, e) <==> RecordAt(a.evidence[i]) > start.createdAt.epochNs
    ensures Replay(Items(a.evidence)[..i]) == Some(before) && Replay(Items(a.evidence)[..i + 1]) == Some(after)
    ensures RecordAt(a.evidence[i]) > start.createdAt.epochNs ==>
              && IsSell(a.evidence[i].evidence.action)
              && before.inventory != "0"
              && LedgerLaws.Amount(after.inventory) < LedgerLaws.Amount(before.inventory)
  {
    hide Accepts, Replay, WellShaped, EvidenceEventId, IndexOf, LedgerLaws.Coherent, LedgerLaws.Amount, Advance, IsBuy, IsFill, RecordAt;
    var shape := ShapedOfAccepts(a, c);
    var m := Machine(a.deployment, a.evidence, a.exactState, a.events, shape);
    DrainingInLog(m, start, i);
    e := StateEvents(m)[i];
    ShapedReplays(m);
    before, after := AroundRecord(Items(a.evidence), i);
    if RecordAt(a.evidence[i]) > start.createdAt.epochNs {
      LedgerLaws.SellShrinks(before, a.evidence[i].evidence, after);
    }
  }

  lemma ShapedReplays(m: Machine)
    requires WellShaped(m)
    ensures Replay(Items(m.evidence)) == Some(m.state)
  {
    hide LogOk, Replay, RecordValid, NonBlank, StrictlySorted, EndingOk, RollbackOk;
  }
}
