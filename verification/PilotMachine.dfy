/**
 The life of a pilot deployment as a machine: each step moves the deployment and emits one event into
 a log kept in the order of (instant, identifier). `Reachable` is what some run of steps produces;
 `WellShaped` describes it without runs, and the two are equal.
 */
module PilotMachine {
  import opened Basics
  import opened KeyOrder
  import opened CandidateReplay
  import opened PilotAudit

  datatype Ending = Open | Faulted(fault: AuditEvent) | Completed(from: Phase)

  /** History that the rows alone do not show: when rollback started, before which record, and the end. */
  datatype Shape = Shape(rollback: Option<Timestamp>, boundary: nat, ending: Ending)

  datatype Machine = Machine(
    deployment: Deployment,
    evidence: seq<EvidenceRecord>,
    state: ExactState,
    log: seq<AuditEvent>,
    shape: Shape)

  datatype Step =
    | Activate(at: Timestamp)
    | AdvanceWith(record: EvidenceRecord)
    | StartRollback(at: Timestamp)
    | Complete(at: Timestamp)
    | Fault(id: string, at: Timestamp, payload: Payload)

  // ---------------------------------------------------------------------------------------------
  // Steps
  // ---------------------------------------------------------------------------------------------

  /** The log is append-only with a primary key: an identifier is used once. */
  predicate Fresh(log: seq<AuditEvent>, id: string) {
    forall e :: e in log ==> e.id != id
  }

  function Emit(log: seq<AuditEvent>, e: AuditEvent): seq<AuditEvent> {
    Insert(e, log, EventKey)
  }

  /** A deployment is created flat, with its creation as the only event. */
  function Created(id: string, account: string, at: Timestamp): Machine {
    var d := Deployment(id, account, PendingFlat, None, None, at, at);
    Machine(d, [], EMPTY_STATE, [CreatedEvent(d)], Shape(None, 0, Open))
  }

  predicate NotBeforeEvidence(evidence: seq<EvidenceRecord>, at: Timestamp) {
    evidence != [] ==> RecordAt(evidence[|evidence| - 1]) <= at.epochNs
  }

  predicate AfterEvidence(evidence: seq<EvidenceRecord>, at: Timestamp) {
    evidence != [] ==> RecordAt(evidence[|evidence| - 1]) < at.epochNs
  }

  function ApplyActivate(m: Machine, at: Timestamp): Option<Machine> {
    var d := m.deployment.(phase := Active, activationAt := Some(at), activationEpochNs := Some(at.epochNs), updatedAt := at);
    var e := ActivationEvent(d);
    if m.deployment.phase.PendingFlat? && at.epochNs >= m.deployment.createdAt.epochNs && at.epochNs >= 0 && Fresh(m.log, e.id)
    then Some(m.(deployment := d, log := Emit(m.log, e)))
    else None
  }

  /** Evidence is folded in only while ACTIVE or DRAINING; draining evidence is later and only sells. */
  ghost function ApplyAdvance(m: Machine, r: EvidenceRecord): Option<Machine> {
    var d, n := m.deployment, |m.evidence|;
    var e := AdvancedEvent(d, r, n, d.phase);
    if (d.phase.Active? || d.phase.Draining?) && d.activationAt.Some?
       && RecordValid(r, d.id) && IsFill(r.evidence) && RecordAt(r) >= d.activationAt.value.epochNs
       && (n > 0 ==> KeyLess(RecordKey(m.evidence[n - 1]), RecordKey(r)))
       && (d.phase.Draining? ==> m.shape.rollback.Some? && RecordAt(r) > m.shape.rollback.value.epochNs && IsSell(r.evidence.action))
       && Fresh(m.log, e.id)
    then
      var next :- Advance(m.state, r.evidence);
      Some(m.(evidence := m.evidence + [r], state := next, log := Emit(m.log, e),
              shape := if d.phase.Active? then m.shape.(boundary := n + 1) else m.shape))
    else None
  }

  function ApplyStartRollback(m: Machine, at: Timestamp): Option<Machine> {
    var d := m.deployment;
    var e := StartedEvent(d, at, |m.evidence|);
    if d.phase.Active? && d.activationAt.Some? && at.epochNs >= d.activationAt.value.epochNs
       && NotBeforeEvidence(m.evidence, at) && Fresh(m.log, e.id)
    then Some(m.(deployment := d.(phase := Draining, updatedAt := at), log := Emit(m.log, e), shape := m.shape.(rollback := Some(at))))
    else None
  }

  /** A transition may not precede the last one, and must strictly follow the start of a rollback. */
  predicate TransitionAllowed(m: Machine, at: Timestamp) {
    && (m.deployment.phase.PendingFlat? || m.deployment.phase.Active? || m.deployment.phase.Draining?)
    && at.epochNs >= m.deployment.updatedAt.epochNs
    && (m.shape.rollback.Some? ==> at.epochNs > m.shape.rollback.value.epochNs)
    && NotBeforeEvidence(m.evidence, at)
  }

  function ApplyComplete(m: Machine, at: Timestamp): Option<Machine> {
    var d := m.deployment;
    var e := CompletedEvent(d, at, d.phase, |m.evidence|);
    if TransitionAllowed(m, at) && IsRollbackFlat(m.state) && Fresh(m.log, e.id)
    then Some(m.(deployment := d.(phase := Disabled, updatedAt := at), log := Emit(m.log, e), shape := m.shape.(ending := Completed(d.phase))))
    else None
  }

  function ApplyFault(m: Machine, id: string, at: Timestamp, payload: Payload): Option<Machine> {
    var d := m.deployment;
    var e := FaultEvent(d, id, at, d.phase, |m.evidence|, payload);
    if TransitionAllowed(m, at) && (m.shape.rollback.Some? ==> AfterEvidence(m.evidence, at))
       && FaultPayloadAccepted(payload) && NonBlank(id) && Fresh(m.log, id)
    then Some(m.(deployment := d.(phase := PausedFault, updatedAt := at), log := Emit(m.log, e), shape := m.shape.(ending := Faulted(e))))
    else None
  }

  ghost function Apply(m: Machine, s: Step): Option<Machine> {
    match s
    case Activate(at) => ApplyActivate(m, at)
    case AdvanceWith(r) => ApplyAdvance(m, r)
    case StartRollback(at) => ApplyStartRollback(m, at)
    case Complete(at) => ApplyComplete(m, at)
    case Fault(id, at, payload) => ApplyFault(m, id, at, payload)
  }

  ghost function Run(start: Machine, steps: seq<Step>): Option<Machine> {
    if steps == [] then Some(start)
    else
      var m :- Run(start, steps[..|steps| - 1]);
      Apply(m, steps[|steps| - 1])
  }

  /** Some run from the creation of the deployment ends here. */
  ghost predicate Reachable(m: Machine) {
    var d := m.deployment;
    && NonBlank(d.id) && NonBlank(d.exchangeAccountId)
    && exists steps :: Run(Created(d.id, d.exchangeAccountId, d.createdAt), steps) == Some(m)
  }

  // ---------------------------------------------------------------------------------------------
  // The shape of a reachable machine
  // ---------------------------------------------------------------------------------------------

  function OpenPhase(m: Machine): Phase {
    if m.deployment.activationAt.None? then PendingFlat else if m.shape.rollback.None? then Active else Draining
  }

  /** When the deployment last moved before it ended. */
  function OpenUpdatedAt(m: Machine): Timestamp {
    if m.deployment.activationAt.None? then m.deployment.createdAt
    else if m.shape.rollback.None? then m.deployment.activationAt.value
    else m.shape.rollback.value
  }

  function RecordPhase(m: Machine, i: nat): Phase { if i < m.shape.boundary then Active else Draining }

  predicate ActivationOk(d: Deployment) {
    if d.activationAt.None? then d.activationEpochNs.None?
    else
      && d.activationEpochNs == Some(d.activationAt.value.epochNs)
      && d.activationAt.value.epochNs >= 0
      && d.activationAt.value.epochNs >= d.createdAt.epochNs
  }

  ghost predicate EvidenceOk(m: Machine) {
    && StrictlySorted(m.evidence, RecordKey)
    && (m.evidence != [] ==> m.deployment.activationAt.Some?)
    && (forall i :: 0 <= i < |m.evidence| ==>
          && RecordValid(m.evidence[i], m.deployment.id) && IsFill(m.evidence[i].evidence)
          && RecordAt(m.evidence[i]) >= m.deployment.activationAt.value.epochNs)
    && Replay(Items(m.evidence)) == Some(m.state)
  }

  predicate RollbackOk(m: Machine) {
    && m.shape.boundary <= |m.evidence|
    && (if m.shape.rollback.None? then m.shape.boundary == |m.evidence|
        else
          && m.deployment.activationAt.Some?
          && m.shape.rollback.value.epochNs >= m.deployment.activationAt.value.epochNs
          && (forall i :: 0 <= i < m.shape.boundary ==> RecordAt(m.evidence[i]) <= m.shape.rollback.value.epochNs)
          && (forall i :: m.shape.boundary <= i < |m.evidence| ==>
                RecordAt(m.evidence[i]) > m.shape.rollback.value.epochNs && IsSell(m.evidence[i].evidence.action)))
  }

  predicate EndedAt(m: Machine, at: Timestamp) {
    && at.epochNs >= OpenUpdatedAt(m).epochNs
    && (m.shape.rollback.Some? ==> at.epochNs > m.shape.rollback.value.epochNs)
    && NotBeforeEvidence(m.evidence, at)
  }

  predicate EndingOk(m: Machine) {
    var d := m.deployment;
    match m.shape.ending
    case Open => d.phase == OpenPhase(m) && d.updatedAt == OpenUpdatedAt(m)
    case Faulted(f) =>
      && d.phase.PausedFault?
      && f == FaultEvent(d, f.id, d.updatedAt, OpenPhase(m), |m.evidence|, f.payload)
      && FaultPayloadAccepted(f.payload) && NonBlank(f.id)
      && EndedAt(m, d.updatedAt) && (m.shape.rollback.Some? ==> AfterEvidence(m.evidence, d.updatedAt))
    case Completed(from) =>
      d.phase.Disabled? && from == OpenPhase(m) && EndedAt(m, d.updatedAt) && IsRollbackFlat(m.state)
  }

  /** The events that this life of the deployment must have left, by type. */
  predicate IsCausal(e: AuditEvent, m: Machine) {
    var d := m.deployment;
    match e.eventType
    case DeploymentCreated => e == CreatedEvent(d)
    case PhaseTransition => d.activationAt.Some? && d.activationEpochNs.Some? && e == ActivationEvent(d)
    case StateAdvanced =>
      0 < e.stateVersion <= |m.evidence|
      && e == AdvancedEvent(d, m.evidence[e.stateVersion - 1], e.stateVersion - 1, RecordPhase(m, e.stateVersion - 1))
    case RollbackStarted => m.shape.rollback.Some? && e == StartedEvent(d, m.shape.rollback.value, m.shape.boundary)
    case RollbackCompleted => m.shape.ending.Completed? && e == CompletedEvent(d, d.updatedAt, m.shape.ending.from, |m.evidence|)
    case FaultPaused => m.shape.ending.Faulted? && e == m.shape.ending.fault
  }

  ghost predicate LogOk(m: Machine) {
    && StrictlySorted(m.log, EventKey)
    && DistinctIds(m.log)
    && forall e :: e in m.log <==> IsCausal(e, m)
  }

  ghost predicate WellShaped(m: Machine) {
    && NonBlank(m.deployment.id) && NonBlank(m.deployment.exchangeAccountId)
    && ActivationOk(m.deployment)
    && EvidenceOk(m)
    && RollbackOk(m)
    && EndingOk(m)
    && LogOk(m)
  }

  // ---------------------------------------------------------------------------------------------
  // Logs
  // ---------------------------------------------------------------------------------------------

  /** Emitting a fresh event keeps the log sorted and its identifiers distinct. */
  lemma EmitOk(log: seq<AuditEvent>, e: AuditEvent)
    requires StrictlySorted(log, EventKey) && DistinctIds(log) && Fresh(log, e.id)
    ensures StrictlySorted(Emit(log, e), EventKey) && DistinctIds(Emit(log, e))
    ensures forall x :: x in Emit(log, e) <==> x in log || x == e
  {
    InsertSorted(e, log, EventKey);
    var r := Emit(log, e);
    forall x ensures x in r <==> x in log || x == e {
      assert x in r <==> x in multiset(r);
      assert x in log <==> x in multiset(log);
    }
    forall i, j | 0 <= i < j < |r| ensures r[i].id != r[j].id {
      KeyTotal(EventKey(r[i]), EventKey(r[j]));
      if r[i] != e && r[j] != e { IdsDecide(log, r[i], r[j]); }
    }
  }

  lemma IdsDecide(log: seq<AuditEvent>, x: AuditEvent, y: AuditEvent)
    requires DistinctIds(log) && x in log && y in log
    ensures x.id == y.id ==> x == y
  {
    var i :| 0 <= i < |log| && log[i] == x;
    var j :| 0 <= j < |log| && log[j] == y;
  }

  lemma {:induction false} WithoutMembers(log: seq<AuditEvent>, e: AuditEvent, x: AuditEvent)
    ensures x in Without(log, e) <==> x in log && x != e
  {
    if log != [] {
      WithoutMembers(log[1..], e, x);
      assert log == [log[0]] + log[1..];
    }
  }

  lemma {:induction false} WithoutSorted(log: seq<AuditEvent>, e: AuditEvent)
    requires StrictlySorted(log, EventKey) && DistinctIds(log)
    ensures StrictlySorted(Without(log, e), EventKey) && DistinctIds(Without(log, e))
    ensures e in log ==> |Without(log, e)| == |log| - 1 && Fresh(Without(log, e), e.id)
    ensures e !in log ==> Without(log, e) == log
  {
    if log != [] {
      var first, rest, r := log[0], log[1..], Without(log[1..], e);
      assert log == [first] + rest;
      WithoutSorted(rest, e);
      forall x | x in r ensures x in rest { WithoutMembers(rest, e, x); }
      forall i | 0 <= i < |r| ensures KeyLess(EventKey(first), EventKey(r[i])) && first.id != r[i].id { assert r[i] in rest; }
      if first == e { assert e !in rest by { if e in rest { KeyTotal(EventKey(e), EventKey(e)); } } }
    }
  }

  /** Taking an event out and emitting it again gives the log back. */
  lemma EmitWithout(log: seq<AuditEvent>, e: AuditEvent)
    requires StrictlySorted(log, EventKey) && DistinctIds(log) && e in log
    ensures Emit(Without(log, e), e) == log
    ensures Fresh(Without(log, e), e.id)
  {
    WithoutSorted(log, e);
    EmitOk(Without(log, e), e);
    forall x ensures x in Emit(Without(log, e), e) <==> x in log { WithoutMembers(log, e, x); }
    SortedUnique(Emit(Without(log, e), e), log, EventKey);
  }
}
