/** A machine is reachable by a run exactly when it is well shaped. */
module PilotReachability {
  import opened Basics
  import opened KeyOrder
  import opened CandidateReplay
  import opened PilotAudit
  import opened PilotMachine

  // ---------------------------------------------------------------------------------------------
  // Forward: steps keep the shape
  // ---------------------------------------------------------------------------------------------

  lemma CreatedIsShaped(id: string, account: string, at: Timestamp)
    requires NonBlank(id) && NonBlank(account)
    ensures WellShaped(Created(id, account, at))
  {
    assert Items([]) == [];
  }

  /** The log after one emission, from the two ways of saying which events are due. */
  lemma LogExtends(m: Machine, next: Machine, e: AuditEvent)
    requires LogOk(m) && Fresh(m.log, e.id) && next.log == Emit(m.log, e)
    requires forall x :: IsCausal(x, next) <==> IsCausal(x, m) || x == e
    ensures LogOk(next)
  {
    EmitOk(m.log, e);
  }

  /** An open machine whose deployment has not been activated has nothing but its creation. */
  lemma PendingIsBare(m: Machine)
    requires EvidenceOk(m) && RollbackOk(m) && m.deployment.activationAt.None?
    ensures m.evidence == [] && m.shape.rollback.None? && m.shape.boundary == 0
  {
  }

  /** Everything but the log. */
  ghost predicate RowsOk(m: Machine) {
    ActivationOk(m.deployment) && EvidenceOk(m) && RollbackOk(m) && EndingOk(m)
  }

  lemma ActivateRows(m: Machine, at: Timestamp, next: Machine)
    requires RowsOk(m) && ApplyActivate(m, at) == Some(next)
    ensures RowsOk(next)
    ensures forall x :: IsCausal(x, next) <==> IsCausal(x, m) || x == ActivationEvent(next.deployment)
  {
    hide RecordValid, Replay, StrictlySorted, Emit, ActivationId, CreatedId, Fresh;
    PendingIsBare(m);
  }

  lemma ActivateKeepsShape(m: Machine, at: Timestamp, next: Machine)
    requires WellShaped(m) && ApplyActivate(m, at) == Some(next)
    ensures WellShaped(next)
  {
    hide IsCausal, EvidenceOk, RollbackOk, EndingOk, ActivationOk, NonBlank, StrictlySorted, Emit;
    ActivateRows(m, at, next);
    LogExtends(m, next, ActivationEvent(next.deployment));
  }

  lemma ItemsSnoc(records: seq<EvidenceRecord>, r: EvidenceRecord)
    ensures Items(records + [r]) == Items(records) + [r.evidence]
    ensures Items(records + [r])[..|records|] == Items(records)
  {
  }

  lemma SortedSnoc(records: seq<EvidenceRecord>, r: EvidenceRecord)
    requires StrictlySorted(records, RecordKey)
    requires records != [] ==> KeyLess(RecordKey(records[|records| - 1]), RecordKey(r))
    ensures StrictlySorted(records + [r], RecordKey)
  {
    var n := |records|;
    forall i | 0 <= i < n ensures KeyLess(RecordKey(records[i]), RecordKey(r)) {
      if i < n - 1 { KeyTransitive(RecordKey(records[i]), RecordKey(records[n - 1]), RecordKey(r)); }
    }
  }

  lemma AdvanceEvidence(m: Machine, r: EvidenceRecord, next: Machine)
    requires EvidenceOk(m) && ApplyAdvance(m, r) == Some(next)
    ensures EvidenceOk(next)
  {
    hide RecordValid, Emit, Advance, Fresh, KeyLess, IsFill;
    ItemsSnoc(m.evidence, r);
    SortedSnoc(m.evidence, r);
  }

  lemma AdvanceTiming(m: Machine, r: EvidenceRecord, next: Machine)
    requires RollbackOk(m) && EndingOk(m) && ApplyAdvance(m, r) == Some(next)
    ensures m.shape.ending.Open? && RollbackOk(next) && EndingOk(next)
  {
    hide RecordValid, Emit, Advance, Fresh, KeyLess, IsFill, FaultPayloadAccepted;
  }

  lemma AdvanceCausal(m: Machine, r: EvidenceRecord, next: Machine, x: AuditEvent)
    requires RollbackOk(m) && EndingOk(m) && m.shape.ending.Open? && ApplyAdvance(m, r) == Some(next)
    ensures IsCausal(x, next) <==> IsCausal(x, m) || x == AdvancedEvent(m.deployment, r, |m.evidence|, m.deployment.phase)
  {
    hide RecordValid, Emit, Advance, Fresh, KeyLess, IsFill, FaultPayloadAccepted, EvidenceEventId, CreatedId, ActivationId,
      StartedId, CompletedId;
  }

  lemma AdvanceKeepsShape(m: Machine, r: EvidenceRecord, next: Machine)
    requires WellShaped(m) && ApplyAdvance(m, r) == Some(next)
    ensures WellShaped(next)
  {
    hide IsCausal, EvidenceOk, RollbackOk, EndingOk, ActivationOk, NonBlank, StrictlySorted, Emit, RecordValid, KeyLess, Advance, IsFill;
    AdvanceEvidence(m, r, next);
    AdvanceTiming(m, r, next);
    var e := AdvancedEvent(m.deployment, r, |m.evidence|, m.deployment.phase);
    forall x ensures IsCausal(x, next) <==> IsCausal(x, m) || x == e { AdvanceCausal(m, r, next, x); }
    LogExtends(m, next, e);
  }

  /** Evidence in order: none is later than the last. */
  lemma LastIsLatest(m: Machine, i: nat)
    requires StrictlySorted(m.evidence, RecordKey) && i < |m.evidence|
    ensures RecordAt(m.evidence[i]) <= RecordAt(m.evidence[|m.evidence| - 1])
  {
    if i < |m.evidence| - 1 { assert KeyLess(RecordKey(m.evidence[i]), RecordKey(m.evidence[|m.evidence| - 1])); }
  }

  lemma StartRows(m: Machine, at: Timestamp, next: Machine)
    requires RowsOk(m) && ApplyStartRollback(m, at) == Some(next)
    ensures RowsOk(next)
  {
    hide RecordValid, Emit, Fresh, StrictlySorted, Replay, IsFill, FaultPayloadAccepted, NonBlank;
    forall i | 0 <= i < |m.evidence| ensures RecordAt(m.evidence[i]) <= at.epochNs { LastIsLatest(m, i); }
  }

  lemma StartCausal(m: Machine, at: Timestamp, next: Machine, x: AuditEvent)
    requires RollbackOk(m) && EndingOk(m) && ApplyStartRollback(m, at) == Some(next)
    ensures IsCausal(x, next) <==> IsCausal(x, m) || x == StartedEvent(m.deployment, at, |m.evidence|)
  {
    hide Emit, Fresh, FaultPayloadAccepted, EvidenceEventId, CreatedId, ActivationId, StartedId, CompletedId, NotBeforeEvidence, EndedAt;
  }

  lemma StartKeepsShape(m: Machine, at: Timestamp, next: Machine)
    requires WellShaped(m) && ApplyStartRollback(m, at) == Some(next)
    ensures WellShaped(next)
  {
    hide IsCausal, EvidenceOk, RollbackOk, EndingOk, ActivationOk, NonBlank, StrictlySorted, Emit, NotBeforeEvidence;
    StartRows(m, at, next);
    var e := StartedEvent(m.deployment, at, |m.evidence|);
    forall x ensures IsCausal(x, next) <==> IsCausal(x, m) || x == e { StartCausal(m, at, next, x); }
    LogExtends(m, next, e);
  }

  lemma CompleteRows(m: Machine, at: Timestamp, next: Machine)
    requires RowsOk(m) && ApplyComplete(m, at) == Some(next)
    ensures RowsOk(next)
  {
    hide RecordValid, Emit, Fresh, StrictlySorted, Replay, IsFill, FaultPayloadAccepted, NonBlank, RecordAt, IsRollbackFlat;
  }

  lemma CompleteCausal(m: Machine, at: Timestamp, next: Machine, x: AuditEvent)
    requires RollbackOk(m) && EndingOk(m) && ApplyComplete(m, at) == Some(next)
    ensures IsCausal(x, next) <==> IsCausal(x, m) || x == CompletedEvent(m.deployment, at, m.deployment.phase, |m.evidence|)
  {
    hide Emit, Fresh, FaultPayloadAccepted, EvidenceEventId, CreatedId, ActivationId, StartedId, CompletedId, NotBeforeEvidence, EndedAt,
      IsRollbackFlat, RollbackOk;
  }

  lemma CompleteKeepsShape(m: Machine, at: Timestamp, next: Machine)
    requires WellShaped(m) && ApplyComplete(m, at) == Some(next)
    ensures WellShaped(next)
  {
    hide IsCausal, EvidenceOk, RollbackOk, EndingOk, ActivationOk, NonBlank, StrictlySorted, Emit, TransitionAllowed, IsRollbackFlat;
    CompleteRows(m, at, next);
    var e := CompletedEvent(m.deployment, at, m.deployment.phase, |m.evidence|);
    forall x ensures IsCausal(x, next) <==> IsCausal(x, m) || x == e { CompleteCausal(m, at, next, x); }
    LogExtends(m, next, e);
  }

  lemma FaultRows(m: Machine, id: string, at: Timestamp, payload: Payload, next: Machine)
    requires RowsOk(m) && ApplyFault(m, id, at, payload) == Some(next)
    ensures RowsOk(next)
  {
    hide RecordValid, Emit, Fresh, StrictlySorted, Replay, IsFill, FaultPayloadAccepted, NonBlank, RecordAt, IsRollbackFlat;
  }

  lemma FaultCausal(m: Machine, id: string, at: Timestamp, payload: Payload, next: Machine, x: AuditEvent)
    requires RollbackOk(m) && EndingOk(m) && ApplyFault(m, id, at, payload) == Some(next)
    ensures IsCausal(x, next) <==> IsCausal(x, m) || x == FaultEvent(m.deployment, id, at, m.deployment.phase, |m.evidence|, payload)
  {
    hide Emit, Fresh, FaultPayloadAccepted, EvidenceEventId, CreatedId, ActivationId, StartedId, CompletedId, NotBeforeEvidence, EndedAt,
      IsRollbackFlat, RollbackOk, NonBlank, AfterEvidence;
  }

  lemma FaultKeepsShape(m: Machine, id: string, at: Timestamp, payload: Payload, next: Machine)
    requires WellShaped(m) && ApplyFault(m, id, at, payload) == Some(next)
    ensures WellShaped(next)
  {
    hide IsCausal, EvidenceOk, RollbackOk, EndingOk, ActivationOk, NonBlank, StrictlySorted, Emit, TransitionAllowed, IsRollbackFlat,
      FaultPayloadAccepted, AfterEvidence;
    FaultRows(m, id, at, payload, next);
    var e := FaultEvent(m.deployment, id, at, m.deployment.phase, |m.evidence|, payload);
    forall x ensures IsCausal(x, next) <==> IsCausal(x, m) || x == e { FaultCausal(m, id, at, payload, next, x); }
    LogExtends(m, next, e);
  }

  lemma StepKeepsShape(m: Machine, s: Step, next: Machine)
    requires WellShaped(m) && Apply(m, s) == Some(next)
    ensures WellShaped(next)
    ensures next.deployment.id == m.deployment.id && next.deployment.exchangeAccountId == m.deployment.exchangeAccountId
    ensures next.deployment.createdAt == m.deployment.createdAt
  {
    hide WellShaped;
    match s
    case Activate(at) => ActivateKeepsShape(m, at, next);
    case AdvanceWith(r) => AdvanceKeepsShape(m, r, next);
    case StartRollback(at) => StartKeepsShape(m, at, next);
    case Complete(at) => CompleteKeepsShape(m, at, next);
    case Fault(id, at, payload) => FaultKeepsShape(m, id, at, payload, next);
  }

  lemma {:induction false} RunKeepsShape(start: Machine, steps: seq<Step>, m: Machine)
    requires WellShaped(start) && Run(start, steps) == Some(m)
    ensures WellShaped(m)
  {
    if steps != [] {
      hide WellShaped, Apply;
      var before := Run(start, steps[..|steps| - 1]).value;
      RunKeepsShape(start, steps[..|steps| - 1], before);
      StepKeepsShape(before, steps[|steps| - 1], m);
    }
  }

  // ---------------------------------------------------------------------------------------------
  // Backward: every well-shaped machine but the created one has a predecessor
  // ---------------------------------------------------------------------------------------------

  /** The machine before the emission of e, given what else changed. */
  lemma LogRetracts(m: Machine, before: Machine, e: AuditEvent)
    requires LogOk(m) && e in m.log && before.log == Without(m.log, e)
    requires forall x :: IsCausal(x, before) <==> IsCausal(x, m) && x != e
    ensures LogOk(before) && Fresh(before.log, e.id) && Emit(before.log, e) == m.log && |before.log| < |m.log|
  {
    EmitWithout(m.log, e);
    WithoutSorted(m.log, e);
    forall x ensures x in before.log <==> IsCausal(x, before) { WithoutMembers(m.log, e, x); }
  }

  /** What a predecessor has in common with its successor. */
  predicate SameCreation(m: Machine, before: Machine) {
    && before.deployment.id == m.deployment.id
    && before.deployment.exchangeAccountId == m.deployment.exchangeAccountId
    && before.deployment.createdAt == m.deployment.createdAt
  }

  function Reopened(m: Machine): Machine {
    m.(deployment := m.deployment.(phase := OpenPhase(m), updatedAt := OpenUpdatedAt(m)), shape := m.shape.(ending := Open))
  }

  lemma ReopenRows(m: Machine)
    requires RowsOk(m)
    ensures RowsOk(Reopened(m)) && Reopened(m).shape.ending.Open?
    ensures EndedAt(m, m.deployment.updatedAt) ==> TransitionAllowed(Reopened(m), m.deployment.updatedAt)
  {
    hide RecordValid, StrictlySorted, Replay, IsFill, FaultPayloadAccepted, NonBlank, RecordAt, IsRollbackFlat;
  }

  function EndingEvent(m: Machine): AuditEvent
    requires !m.shape.ending.Open?
  {
    if m.shape.ending.Faulted? then m.shape.ending.fault
    else CompletedEvent(m.deployment, m.deployment.updatedAt, m.shape.ending.from, |m.evidence|)
  }

  lemma ReopenCausal(m: Machine, x: AuditEvent)
    requires EndingOk(m) && !m.shape.ending.Open?
    ensures IsCausal(EndingEvent(m), m)
    ensures IsCausal(x, Reopened(m)) <==> IsCausal(x, m) && x != EndingEvent(m)
  {
    hide FaultPayloadAccepted, EvidenceEventId, CreatedId, ActivationId, StartedId, CompletedId, NotBeforeEvidence, EndedAt,
      IsRollbackFlat, NonBlank, AfterEvidence;
  }

  lemma ReopenLog(m: Machine, before: Machine)
    requires RowsOk(m) && LogOk(m) && !m.shape.ending.Open?
    requires before == Reopened(m).(log := Without(m.log, EndingEvent(m)))
    ensures LogOk(before) && Fresh(before.log, EndingEvent(m).id) && Emit(before.log, EndingEvent(m)) == m.log && |before.log| < |m.log|
  {
    hide IsCausal, EvidenceOk, RollbackOk, EndingOk, ActivationOk, Emit, StrictlySorted;
    var e := EndingEvent(m);
    forall x ensures IsCausal(x, Reopened(m)) <==> IsCausal(x, m) && x != e { ReopenCausal(m, x); }
    forall x ensures IsCausal(x, before) <==> IsCausal(x, Reopened(m)) { CausalIgnoresLog(before, Reopened(m), x); }
    ReopenCausal(m, e);
    LogRetracts(m, before, e);
  }

  lemma CausalIgnoresLog(a: Machine, b: Machine, x: AuditEvent)
    requires a == b.(log := a.log)
    ensures IsCausal(x, a) <==> IsCausal(x, b)
  {
    hide EvidenceEventId, CreatedId, ActivationId, StartedId, CompletedId;
  }

  lemma RowsIgnoreLog(a: Machine, b: Machine)
    requires a == b.(log := a.log)
    ensures RowsOk(a) <==> RowsOk(b)
    ensures forall at :: TransitionAllowed(a, at) <==> TransitionAllowed(b, at)
  {
    hide RecordValid, StrictlySorted, Replay, IsFill, FaultPayloadAccepted, NonBlank, RecordAt, IsRollbackFlat;
  }

  /** Reopening and applying the ending step again, once the step is known to be allowed. */
  lemma EndAgain(m: Machine, before: Machine, s: Step)
    requires EndingOk(m) && !m.shape.ending.Open?
    requires before == Reopened(m).(log := before.log)
    requires s == EndingStep(m)
    requires Fresh(before.log, EndingEvent(m).id) && Emit(before.log, EndingEvent(m)) == m.log
    requires TransitionAllowed(before, m.deployment.updatedAt)
    ensures Apply(before, s) == Some(m)
  {
    hide EndedAt, TransitionAllowed, IsRollbackFlat, FaultPayloadAccepted, NonBlank, CompletedId, Fresh, Emit, OpenUpdatedAt, AfterEvidence;
  }

  function EndingStep(m: Machine): Step
    requires !m.shape.ending.Open?
  {
    match m.shape.ending
    case Faulted(f) => Fault(f.id, m.deployment.updatedAt, f.payload)
    case Completed(_) => Complete(m.deployment.updatedAt)
  }

  lemma UnEnd(m: Machine) returns (before: Machine, s: Step)
    requires WellShaped(m) && !m.shape.ending.Open?
    ensures before == Reopened(m).(log := Without(m.log, EndingEvent(m)))
    ensures WellShaped(before) && Apply(before, s) == Some(m) && |before.log| < |m.log| && SameCreation(m, before)
  {
    before := Reopened(m).(log := Without(m.log, EndingEvent(m)));
    s := EndingStep(m);
    assert EndedAt(m, m.deployment.updatedAt);
    hide IsCausal, EvidenceOk, RollbackOk, EndingOk, ActivationOk, Emit, EndedAt, TransitionAllowed, NonBlank, Fresh, LogOk, Apply, Without,
      EndingEvent, EndingStep, OpenPhase, OpenUpdatedAt;
    ReopenRows(m);
    ReopenLog(m, before);
    RowsIgnoreLog(before, Reopened(m));
    EndAgain(m, before, s);
  }

  lemma UnAdvanceEvidence(m: Machine, before: Machine, r: EvidenceRecord)
    requires EvidenceOk(m) && before.evidence + [r] == m.evidence
    requires before.deployment == m.deployment
    requires Replay(Items(before.evidence)) == Some(before.state)
    ensures EvidenceOk(before) && Advance(before.state, r.evidence) == Some(m.state)
    ensures RecordValid(r, m.deployment.id) && IsFill(r.evidence) && m.deployment.activationAt.Some?
    ensures RecordAt(r) >= m.deployment.activationAt.value.epochNs
    ensures before.evidence != [] ==> KeyLess(RecordKey(before.evidence[|before.evidence| - 1]), RecordKey(r))
  {
    hide RecordValid, Advance, IsFill, KeyLess, RecordKey;
    ItemsSnoc(before.evidence, r);
    assert m.evidence[|before.evidence|] == r;
    assert forall i :: 0 <= i < |before.evidence| ==> m.evidence[i] == before.evidence[i];
  }

  function UnAdvanced(m: Machine, state: ExactState): Machine
    requires m.evidence != []
  {
    var n := |m.evidence| - 1;
    m.(evidence := m.evidence[..n], state := state,
       log := Without(m.log, AdvancedEvent(m.deployment, m.evidence[n], n, m.deployment.phase)),
       shape := if m.shape.rollback.None? then m.shape.(boundary := n) else m.shape)
  }

  predicate LastIsAdvance(m: Machine) {
    && m.shape.ending.Open? && m.evidence != [] && m.deployment.activationAt.Some?
    && (m.shape.rollback.None? || |m.evidence| > m.shape.boundary)
  }

  lemma UnAdvanceTiming(m: Machine, state: ExactState)
    requires RollbackOk(m) && EndingOk(m) && LastIsAdvance(m)
    ensures var before, r := UnAdvanced(m, state), m.evidence[|m.evidence| - 1];
            && RollbackOk(before) && EndingOk(before)
            && (m.deployment.phase.Active? || m.deployment.phase.Draining?)
            && (m.deployment.phase.Draining? ==> m.shape.rollback.Some? && RecordAt(r) > m.shape.rollback.value.epochNs && IsSell(r.evidence.action))
            && m.shape == (if m.deployment.phase.Active? then before.shape.(boundary := |m.evidence|) else before.shape)
  {
    hide Without, FaultPayloadAccepted, EvidenceEventId;
  }

  lemma UnAdvanceCausal(m: Machine, state: ExactState, x: AuditEvent)
    requires RollbackOk(m) && EndingOk(m) && LastIsAdvance(m)
    ensures var e := AdvancedEvent(m.deployment, m.evidence[|m.evidence| - 1], |m.evidence| - 1, m.deployment.phase);
            IsCausal(e, m) && (IsCausal(x, UnAdvanced(m, state)) <==> IsCausal(x, m) && x != e)
  {
    hide Without, FaultPayloadAccepted, EvidenceEventId, CreatedId, ActivationId, StartedId, CompletedId;
  }

  lemma AdvanceAgain(m: Machine, before: Machine, r: EvidenceRecord)
    requires m.evidence != [] && r == m.evidence[|m.evidence| - 1]
    requires before == UnAdvanced(m, before.state)
    requires m.deployment.phase.Active? || m.deployment.phase.Draining?
    requires m.deployment.activationAt.Some? && RecordValid(r, m.deployment.id) && IsFill(r.evidence)
    requires RecordAt(r) >= m.deployment.activationAt.value.epochNs
    requires before.evidence != [] ==> KeyLess(RecordKey(before.evidence[|before.evidence| - 1]), RecordKey(r))
    requires m.deployment.phase.Draining? ==>
               m.shape.rollback.Some? && RecordAt(r) > m.shape.rollback.value.epochNs && IsSell(r.evidence.action)
    requires m.shape == if m.deployment.phase.Active? then before.shape.(boundary := |m.evidence|) else before.shape
    requires Advance(before.state, r.evidence) == Some(m.state)
    requires var e := AdvancedEvent(m.deployment, r, |m.evidence| - 1, m.deployment.phase);
             Fresh(before.log, e.id) && Emit(before.log, e) == m.log
    ensures Apply(before, AdvanceWith(r)) == Some(m)
  {
    hide RecordValid, IsFill, KeyLess, RecordKey, IsSell, Advance, Fresh, Emit, EvidenceEventId, Without, RecordAt;
    assert before.evidence + [r] == m.evidence;
  }

  lemma UnAdvanceLog(m: Machine, state: ExactState)
    requires RollbackOk(m) && EndingOk(m) && LogOk(m) && LastIsAdvance(m)
    ensures var before := UnAdvanced(m, state);
            var e := AdvancedEvent(m.deployment, m.evidence[|m.evidence| - 1], |m.evidence| - 1, m.deployment.phase);
            LogOk(before) && Fresh(before.log, e.id) && Emit(before.log, e) == m.log && |before.log| < |m.log|
  {
    hide IsCausal, RollbackOk, EndingOk, Emit, EvidenceEventId, Fresh, LogOk, Without;
    var before := UnAdvanced(m, state);
    var e := AdvancedEvent(m.deployment, m.evidence[|m.evidence| - 1], |m.evidence| - 1, m.deployment.phase);
    forall x ensures IsCausal(x, before) <==> IsCausal(x, m) && x != e { UnAdvanceCausal(m, state, x); }
    UnAdvanceCausal(m, state, e);
    InLog(m, e);
    LogRetracts(m, before, e);
  }

  lemma StateBeforeLast(m: Machine) returns (state: ExactState)
    requires EvidenceOk(m) && m.evidence != []
    ensures Replay(Items(m.evidence[..|m.evidence| - 1])) == Some(state)
  {
    hide RecordValid, StrictlySorted, Advance, IsFill, Items;
    var n := |m.evidence| - 1;
    assert m.evidence == m.evidence[..n] + [m.evidence[n]];
    ItemsSnoc(m.evidence[..n], m.evidence[n]);
    state := Replay(Items(m.evidence[..n])).value;
  }

  lemma UnAdvance(m: Machine) returns (before: Machine, s: Step)
    requires WellShaped(m) && LastIsAdvance(m)
    ensures WellShaped(before) && Apply(before, s) == Some(m) && |before.log| < |m.log| && SameCreation(m, before)
  {
    hide IsCausal, EvidenceOk, RollbackOk, EndingOk, ActivationOk, Emit, RecordValid, NonBlank, Fresh, LogOk, Advance, Replay, KeyLess, IsFill,
      Without, Apply, IsSell, RecordAt, AdvancedEvent, Items, RecordKey, StrictlySorted;
    var r := m.evidence[|m.evidence| - 1];
    s := AdvanceWith(r);
    var state := StateBeforeLast(m);
    before := UnAdvanced(m, state);
    UnAdvanceEvidence(m, before, r);
    UnAdvanceTiming(m, state);
    UnAdvanceLog(m, state);
    AdvanceAgain(m, before, r);
  }

  lemma InLog(m: Machine, e: AuditEvent)
    requires LogOk(m) && IsCausal(e, m)
    ensures e in m.log
  {
  }

  function UnStarted(m: Machine): Machine
    requires m.shape.rollback.Some? && m.deployment.activationAt.Some?
  {
    m.(deployment := m.deployment.(phase := Active, updatedAt := m.deployment.activationAt.value),
       log := Without(m.log, StartedEvent(m.deployment, m.shape.rollback.value, m.shape.boundary)),
       shape := m.shape.(rollback := None))
  }

  predicate LastIsStart(m: Machine) {
    m.shape.ending.Open? && m.deployment.activationAt.Some? && m.shape.rollback.Some? && |m.evidence| == m.shape.boundary
  }

  lemma UnStartRows(m: Machine)
    requires RowsOk(m) && LastIsStart(m)
    ensures RowsOk(UnStarted(m)) && m.deployment.phase.Draining? && m.deployment.updatedAt == m.shape.rollback.value
    ensures m.shape.rollback.value.epochNs >= m.deployment.activationAt.value.epochNs
    ensures NotBeforeEvidence(m.evidence, m.shape.rollback.value)
  {
    hide RecordValid, StrictlySorted, Replay, IsFill, FaultPayloadAccepted, NonBlank, IsRollbackFlat, Without, StartedId;
  }

  lemma UnStartCausal(m: Machine, x: AuditEvent)
    requires RollbackOk(m) && LastIsStart(m)
    ensures var e := StartedEvent(m.deployment, m.shape.rollback.value, m.shape.boundary);
            IsCausal(e, m) && (IsCausal(x, UnStarted(m)) <==> IsCausal(x, m) && x != e)
  {
    hide Without, EvidenceEventId, CreatedId, ActivationId, StartedId, CompletedId;
  }

  lemma UnStartLog(m: Machine)
    requires RollbackOk(m) && LogOk(m) && LastIsStart(m)
    ensures var before, e := UnStarted(m), StartedEvent(m.deployment, m.shape.rollback.value, m.shape.boundary);
            LogOk(before) && Fresh(before.log, e.id) && Emit(before.log, e) == m.log && |before.log| < |m.log|
  {
    hide IsCausal, RollbackOk, Emit, StartedEvent, Fresh, LogOk, Without;
    var before, e := UnStarted(m), StartedEvent(m.deployment, m.shape.rollback.value, m.shape.boundary);
    forall x ensures IsCausal(x, before) <==> IsCausal(x, m) && x != e { UnStartCausal(m, x); }
    UnStartCausal(m, e);
    InLog(m, e);
    LogRetracts(m, before, e);
  }

  lemma UnStart(m: Machine) returns (before: Machine, s: Step)
    requires WellShaped(m) && LastIsStart(m)
    ensures WellShaped(before) && Apply(before, s) == Some(m) && |before.log| < |m.log| && SameCreation(m, before)
  {
    before := UnStarted(m);
    s := StartRollback(m.shape.rollback.value);
    hide IsCausal, EvidenceOk, RollbackOk, EndingOk, ActivationOk, Emit, NonBlank, StartedId, Fresh, LogOk, Without, NotBeforeEvidence;
    UnStartRows(m);
    UnStartLog(m);
  }

  lemma UnActivate(m: Machine) returns (before: Machine, s: Step)
    requires WellShaped(m) && m.shape.ending.Open? && m.shape.rollback.None? && m.evidence == []
    requires m.deployment.activationAt.Some?
    ensures WellShaped(before) && Apply(before, s) == Some(m) && |before.log| < |m.log| && SameCreation(m, before)
  {
    hide RecordValid, Emit, ActivationId, CreatedId, StrictlySorted, NonBlank, Without;
    var d := m.deployment;
    var e := ActivationEvent(d);
    before := m.(deployment := d.(phase := PendingFlat, activationAt := None, activationEpochNs := None, updatedAt := d.createdAt),
                 log := Without(m.log, e));
    s := Activate(d.activationAt.value);
    assert IsCausal(e, m);
    LogRetracts(m, before, e);
  }

  lemma BareIsCreated(m: Machine)
    requires WellShaped(m) && m.shape.ending.Open? && m.deployment.activationAt.None?
    ensures m == Created(m.deployment.id, m.deployment.exchangeAccountId, m.deployment.createdAt)
  {
    PendingIsBare(m);
    var c := CreatedEvent(m.deployment);
    assert Items([]) == [];
    assert IsCausal(c, m);
    SortedUnique(m.log, [c], EventKey);
  }

  lemma Predecessor(m: Machine) returns (before: Machine, s: Step)
    requires WellShaped(m)
    requires m != Created(m.deployment.id, m.deployment.exchangeAccountId, m.deployment.createdAt)
    ensures WellShaped(before) && Apply(before, s) == Some(m) && |before.log| < |m.log| && SameCreation(m, before)
  {
    if !m.shape.ending.Open? {
      before, s := UnEnd(m);
    } else if m.deployment.activationAt.None? {
      BareIsCreated(m);
      assert false;
    } else if LastIsAdvance(m) {
      before, s := UnAdvance(m);
    } else if m.shape.rollback.Some? {
      before, s := UnStart(m);
    } else {
      before, s := UnActivate(m);
    }
  }

  lemma {:induction false} ShapedIsRun(m: Machine) returns (steps: seq<Step>)
    requires WellShaped(m)
    ensures Run(Created(m.deployment.id, m.deployment.exchangeAccountId, m.deployment.createdAt), steps) == Some(m)
    decreases |m.log|
  {
    hide WellShaped, Apply;
    if m == Created(m.deployment.id, m.deployment.exchangeAccountId, m.deployment.createdAt) {
      steps := [];
    } else {
      var before, s := Predecessor(m);
      steps := ShapedIsRun(before);
      assert (steps + [s])[..|steps|] == steps;
      steps := steps + [s];
    }
  }

  /** What runs produce is exactly what is well shaped. */
  lemma ReachableIffShaped(m: Machine)
    ensures Reachable(m) <==> WellShaped(m)
  {
    var d := m.deployment;
    var start := Created(d.id, d.exchangeAccountId, d.createdAt);
    if Reachable(m) {
      var steps :| Run(start, steps) == Some(m);
      CreatedIsShaped(d.id, d.exchangeAccountId, d.createdAt);
      RunKeepsShape(start, steps, m);
    }
    if WellShaped(m) {
      var steps := ShapedIsRun(m);
      assert Run(start, steps) == Some(m);
    }
  }
}
