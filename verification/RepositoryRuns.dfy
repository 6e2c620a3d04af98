/**
 The repositories' own runs. They store evidence whenever the replay of all evidence advances by one
 version, without looking at the phase, the activation, the order or the start of a rollback. The rows
 and the log that such a run leaves are accepted at start-up exactly when every record was in place and
 the state can be read back, and the transactions of the SQLite repository see to the latter.
 */
module RepositoryRuns {
  import opened Basics
  import opened DecimalText
  import opened KeyOrder
  import opened CandidateReplay
  import opened PilotAudit
  import opened PilotMachine
  import opened PilotReachability
  import opened StartupValidator
  import opened RoutableStates
  import LedgerLaws
  import opened StartupTheorem
  import opened StartupMain

  // ---------------------------------------------------------------------------------------------
  // Steps
  // ---------------------------------------------------------------------------------------------

  /**
   advanceStateWithEvidence, for evidence that is not stored yet: what is stored afterwards, though the
   in-memory repository makes the routing state for its answer only then, and may throw.
   */
  ghost function StoreAdvance(m: Machine, r: EvidenceRecord): Option<Machine> {
    var d := m.deployment;
    var e := AdvancedEvent(d, r, m.state.stateVersion, d.phase);
    if !RecordValid(r, d.id) || !Fresh(m.log, e.id) then None
    else
      var next :- Project(Items(m.evidence + [r]));
      if next.stateVersion != m.state.stateVersion + 1 then None
      else Some(m.(evidence := Insert(r, m.evidence, RecordKey), state := next, log := Emit(m.log, e),
                   shape := if d.phase.Active? then m.shape.(boundary := |m.evidence| + 1) else m.shape))
  }

  ghost function StoreStep(m: Machine, s: Step): Option<Machine> {
    if s.AdvanceWith? then StoreAdvance(m, s.record) else Apply(m, s)
  }

  ghost function StoreRun(start: Machine, steps: seq<Step>): Option<Machine> {
    if steps == [] then Some(start)
    else
      var m :- StoreRun(start, steps[..|steps| - 1]);
      StoreStep(m, steps[|steps| - 1])
  }

  /** Projected while ACTIVE or DRAINING, not before the activation, after all other evidence; while DRAINING a sell after the start. */
  predicate RecordInPlace(m: Machine, r: EvidenceRecord) {
    var d := m.deployment;
    && (d.phase.Active? || d.phase.Draining?)
    && d.activationAt.Some? && RecordAt(r) >= d.activationAt.value.epochNs
    && (m.evidence != [] ==> KeyLess(RecordKey(m.evidence[|m.evidence| - 1]), RecordKey(r)))
    && (d.phase.Draining? ==> m.shape.rollback.Some? && RecordAt(r) > m.shape.rollback.value.epochNs && IsSell(r.evidence.action))
  }

  /** Every record of the run was in place when it was stored. */
  ghost predicate AllInPlace(start: Machine, steps: seq<Step>) {
    steps == [] ||
    (AllInPlace(start, steps[..|steps| - 1]) && StoreRun(start, steps[..|steps| - 1]).Some? &&
     (steps[|steps| - 1].AdvanceWith? ==> RecordInPlace(StoreRun(start, steps[..|steps| - 1]).value, steps[|steps| - 1].record)))
  }

  // ---------------------------------------------------------------------------------------------
  // In place, the repository's advance is the machine's
  // ---------------------------------------------------------------------------------------------

  lemma {:induction false} InsertLast(r: EvidenceRecord, records: seq<EvidenceRecord>)
    requires StrictlySorted(records + [r], RecordKey)
    ensures Insert(r, records, RecordKey) == records + [r]
  {
    hide RecordKey, KeyLess;
    if records != [] {
      assert (records + [r])[0] == records[0] && (records + [r])[|records|] == r;
      KeyTotal(RecordKey(records[0]), RecordKey(r));
      assert records[1..] + [r] == (records + [r])[1..];
      InsertLast(r, records[1..]);
    }
  }

  /** Appending the last record advances the replay by one step. */
  lemma ProjectOfLast(m: Machine, r: EvidenceRecord)
    requires EvidenceOk(m) && (m.evidence != [] ==> KeyLess(RecordKey(m.evidence[|m.evidence| - 1]), RecordKey(r)))
    ensures Project(Items(m.evidence + [r])) == Advance(m.state, r.evidence)
    ensures Insert(r, m.evidence, RecordKey) == m.evidence + [r]
    ensures m.state.stateVersion == |m.evidence|
  {
    hide Project, Sort, Advance, RecordKey, KeyLess, RecordValid, IsFill, Insert;
    SortedSnoc(m.evidence, r);
    ProjectSorted(m.evidence + [r]);
    ItemsSnoc(m.evidence, r);
    InsertLast(r, m.evidence);
    VersionIsFillCount(m.evidence, m.state);
  }

  /** A replayed state advances by one version exactly with a fill. */
  lemma VersionAdvances(m: Machine, r: EvidenceRecord)
    requires EvidenceOk(m) && Advance(m.state, r.evidence).Some?
    ensures Advance(m.state, r.evidence).value.stateVersion == m.state.stateVersion + 1 <==> IsFill(r.evidence)
  {
    hide Advance, IsFill, RecordValid, StrictlySorted, Replay;
    LedgerLaws.CashConservation(Items(m.evidence), m.state);
    LedgerLaws.AdvanceBooked(m.state, r.evidence, Advance(m.state, r.evidence).value);
  }

  lemma AdvanceInPlace(m: Machine, r: EvidenceRecord, x: Machine)
    requires WellShaped(m)
    ensures ApplyAdvance(m, r) == Some(x) <==> StoreAdvance(m, r) == Some(x) && RecordInPlace(m, r)
  {
    hide Project, Advance, Replay, IsFill, RecordValid, KeyLess, RecordKey, Insert, Emit, Fresh, AdvancedEvent, IsSell, LogOk, RollbackOk, EndingOk, NonBlank;
    if m.evidence != [] ==> KeyLess(RecordKey(m.evidence[|m.evidence| - 1]), RecordKey(r)) {
      ProjectOfLast(m, r);
      if Advance(m.state, r.evidence).Some? { VersionAdvances(m, r); }
    }
  }

  // ---------------------------------------------------------------------------------------------
  // Out of place, no well-shaped log contains the event
  // ---------------------------------------------------------------------------------------------

  /** No well-shaped machine of this deployment has these events in its log. */
  ghost predicate Ruined(log: seq<AuditEvent>, id: string) {
    forall x: Machine :: x.deployment.id == id && (forall e :: e in log ==> e in x.log) ==> !WellShaped(x)
  }

  /** A state event of a well-shaped log is that of the record of its version. */
  lemma RecordOfEvent(x: Machine, d: Deployment, r: EvidenceRecord, n: nat, phase: Phase)
    requires WellShaped(x) && d.id == x.deployment.id && RecordValid(r, d.id) && AdvancedEvent(d, r, n, phase) in x.log
    ensures n < |x.evidence| && x.evidence[n] == r && phase == RecordPhase(x, n)
    ensures x.deployment.activationAt.Some? && RecordAt(r) >= x.deployment.activationAt.value.epochNs
  {
    hide Replay, MaterialAccepted, IsFill, StrictlySorted, RollbackOk, EndingOk, NonBlank, DistinctIds, EvidenceEventId;
    var e := AdvancedEvent(d, r, n, phase);
    assert IsCausal(e, x);
    assert RecordValid(x.evidence[n], d.id);
  }

  lemma ActivationOfLog(m: Machine, x: Machine)
    requires WellShaped(m) && WellShaped(x) && m.deployment.id == x.deployment.id && forall e :: e in m.log ==> e in x.log
    requires m.deployment.activationAt.Some?
    ensures x.deployment.activationAt == m.deployment.activationAt
  {
    hide EvidenceOk, RollbackOk, EndingOk, NonBlank, DistinctIds, StrictlySorted, ActivationId;
    var e := ActivationEvent(m.deployment);
    assert IsCausal(e, m);
    assert IsCausal(e, x);
  }

  lemma StartOfLog(m: Machine, x: Machine)
    requires WellShaped(m) && WellShaped(x) && m.deployment.id == x.deployment.id && forall e :: e in m.log ==> e in x.log
    requires m.shape.rollback.Some?
    ensures x.shape.rollback == m.shape.rollback && x.shape.boundary == m.shape.boundary
  {
    hide EvidenceOk, RollbackOk, EndingOk, NonBlank, DistinctIds, StrictlySorted, StartedId, ActivationOk;
    var e := StartedEvent(m.deployment, m.shape.rollback.value, m.shape.boundary);
    assert IsCausal(e, m);
    assert IsCausal(e, x);
  }

  lemma LastOfLog(m: Machine, x: Machine)
    requires WellShaped(m) && WellShaped(x) && m.deployment.id == x.deployment.id && forall e :: e in m.log ==> e in x.log
    requires m.evidence != []
    ensures |m.evidence| <= |x.evidence| && x.evidence[|m.evidence| - 1] == m.evidence[|m.evidence| - 1]
  {
    hide Replay, RollbackOk, EndingOk, NonBlank, DistinctIds, StrictlySorted, EvidenceEventId, ActivationOk, MaterialAccepted, IsFill;
    var n := |m.evidence| - 1;
    var e := AdvancedEvent(m.deployment, m.evidence[n], n, RecordPhase(m, n));
    assert IsCausal(e, m);
    RecordOfEvent(x, m.deployment, m.evidence[n], n, RecordPhase(m, n));
  }

  /** If a well-shaped log contains what the repository stored, the record was in place. */
  lemma StoredInPlace(m: Machine, r: EvidenceRecord, next: Machine, x: Machine)
    requires WellShaped(m) && StoreAdvance(m, r) == Some(next)
    requires WellShaped(x) && x.deployment.id == m.deployment.id && forall e :: e in next.log ==> e in x.log
    ensures RecordInPlace(m, r)
  {
    hide WellShaped, StoreAdvance, AdvancedEvent, RecordValid, IsSell, KeyLess, RecordKey, RecordAt;
    StoredEvent(m, r, next);
    RecordOfEvent(x, m.deployment, r, |m.evidence|, m.deployment.phase);
    OpenPhases(m);
    ActivationOfLog(m, x);
    if m.evidence != [] {
      LastOfLog(m, x);
      ConsecutiveRecords(x, |m.evidence| - 1);
    }
    if m.deployment.phase.Draining? {
      StartOfLog(m, x);
      DrainedRecord(x, |m.evidence|);
    }
  }

  lemma StoredEvent(m: Machine, r: EvidenceRecord, next: Machine)
    requires WellShaped(m) && StoreAdvance(m, r) == Some(next)
    ensures RecordValid(r, m.deployment.id) && AdvancedEvent(m.deployment, r, |m.evidence|, m.deployment.phase) in next.log
    ensures (forall e :: e in m.log ==> e in next.log) && next.deployment == m.deployment
  {
    hide Replay, RecordValid, IsFill, RollbackOk, EndingOk, NonBlank, Project, Insert, AdvancedEvent, KeyLess, IsCausal;
    VersionIsFillCount(m.evidence, m.state);
    var e := AdvancedEvent(m.deployment, r, m.state.stateVersion, m.deployment.phase);
    EmitOk(m.log, e);
  }

  lemma OpenPhases(m: Machine)
    requires WellShaped(m)
    ensures m.deployment.phase.Active? || m.deployment.phase.Draining? ==> m.deployment.activationAt.Some?
    ensures m.deployment.phase.Draining? ==> m.shape.rollback.Some?
  {
    hide EvidenceOk, RollbackOk, NonBlank, LogOk;
  }

  lemma ConsecutiveRecords(x: Machine, i: nat)
    requires WellShaped(x) && i + 1 < |x.evidence|
    ensures KeyLess(RecordKey(x.evidence[i]), RecordKey(x.evidence[i + 1]))
  {
    hide KeyLess, RecordKey, RecordValid, IsFill, Replay, RollbackOk, EndingOk, LogOk, NonBlank;
  }

  lemma DrainedRecord(x: Machine, i: nat)
    requires WellShaped(x) && i < |x.evidence| && x.shape.rollback.Some? && RecordPhase(x, i) == Draining
    ensures RecordAt(x.evidence[i]) > x.shape.rollback.value.epochNs && IsSell(x.evidence[i].evidence.action)
  {
    hide EvidenceOk, EndingOk, LogOk, NonBlank, IsSell;
  }

  lemma OutOfPlaceRuins(m: Machine, r: EvidenceRecord, next: Machine)
    requires WellShaped(m) && StoreAdvance(m, r) == Some(next) && !RecordInPlace(m, r)
    ensures Ruined(next.log, next.deployment.id)
  {
    hide WellShaped, RecordInPlace;
    forall x: Machine | x.deployment.id == next.deployment.id && forall e :: e in next.log ==> e in x.log ensures !WellShaped(x) {
      if WellShaped(x) {
        StoredInPlace(m, r, next, x);
        assert false;
      }
    }
  }

  // ---------------------------------------------------------------------------------------------
  // Runs
  // ---------------------------------------------------------------------------------------------

  lemma EmitMembers(log: seq<AuditEvent>, e: AuditEvent)
    ensures forall x :: x in Emit(log, e) <==> x in log || x == e
  {
    var r := Emit(log, e);
    forall x ensures x in r <==> x in log || x == e {
      assert x in r <==> x in multiset(r);
      assert x in log <==> x in multiset(log);
    }
  }

  /** The log is append-only, and the deployment keeps its name. */
  lemma StoreStepGrows(m: Machine, s: Step, next: Machine)
    requires StoreStep(m, s) == Some(next)
    ensures next.deployment.id == m.deployment.id && forall e :: e in m.log ==> e in next.log
  {
    hide Emit, Insert, Project, Advance, RecordValid, Fresh, NotBeforeEvidence, AfterEvidence, KeyLess, CreatedId, ActivationId, StartedId, CompletedId,
      EvidenceEventId, FaultPayloadAccepted, NonBlank, IsRollbackFlat;
    forall e ensures forall x :: x in m.log ==> x in Emit(m.log, e) { EmitMembers(m.log, e); }
  }

  lemma RuinedGrows(log: seq<AuditEvent>, more: seq<AuditEvent>, id: string)
    requires Ruined(log, id) && forall e :: e in log ==> e in more
    ensures Ruined(more, id)
  {
    hide WellShaped;
  }

  lemma StoreStepInPlace(m: Machine, s: Step, next: Machine)
    requires WellShaped(m) && StoreStep(m, s) == Some(next)
    ensures if s.AdvanceWith? && !RecordInPlace(m, s.record) then Ruined(next.log, next.deployment.id) else WellShaped(next)
  {
    hide WellShaped, StoreAdvance, ApplyAdvance, RecordInPlace, Ruined;
    if s.AdvanceWith? {
      if RecordInPlace(m, s.record) {
        AdvanceInPlace(m, s.record, next);
        StepKeepsShape(m, s, next);
      } else {
        OutOfPlaceRuins(m, s.record, next);
      }
    } else {
      StepKeepsShape(m, s, next);
    }
  }

  /** A stored run stays well shaped as long as every record is in place, and is ruined from the first one that is not. */
  lemma {:induction false} RunKeepsOrRuins(start: Machine, steps: seq<Step>, m: Machine)
    requires WellShaped(start) && StoreRun(start, steps) == Some(m)
    ensures m.deployment.id == start.deployment.id
    ensures if AllInPlace(start, steps) then WellShaped(m) else Ruined(m.log, m.deployment.id)
  {
    hide WellShaped, StoreStep, Ruined, RecordInPlace;
    if steps != [] {
      var front, s := steps[..|steps| - 1], steps[|steps| - 1];
      var before := StoreRun(start, front).value;
      RunKeepsOrRuins(start, front, before);
      StoreStepGrows(before, s, m);
      if AllInPlace(start, front) { StoreStepInPlace(before, s, m); } else { RuinedGrows(before.log, m.log, m.deployment.id); }
    }
  }

  /** What the rows show of a machine. */
  function RowsOf(m: Machine, outcome: Outcome): Authority { Authority(outcome, m.deployment, m.state, m.evidence, m.log) }

  lemma RuinedIsNotLeft(m: Machine, outcome: Outcome)
    requires Ruined(m.log, m.deployment.id)
    ensures !LeftByRun(RowsOf(m, outcome))
  {
    hide WellShaped, Reachable;
    if LeftByRun(RowsOf(m, outcome)) {
      var shape :| Reachable(Machine(m.deployment, m.evidence, m.state, m.log, shape));
      ReachableIffShaped(Machine(m.deployment, m.evidence, m.state, m.log, shape));
      assert false;
    }
  }

  lemma ShapedIsLeft(m: Machine, outcome: Outcome)
    requires WellShaped(m)
    ensures LeftByRun(RowsOf(m, outcome))
  {
    hide WellShaped, Reachable;
    ReachableIffShaped(m);
    assert Machine(m.deployment, m.evidence, m.state, m.log, m.shape) == m;
  }

  /** The start-up validator accepts what a run of the repository stored exactly when every record was in place, and the rows are admissible now. */
  lemma StoredRunAcceptedIff(id: string, account: string, at: Timestamp, steps: seq<Step>, m: Machine, outcome: Outcome, c: Context)
    requires NonBlank(id) && NonBlank(account) && StoreRun(Created(id, account, at), steps) == Some(m)
    ensures Accepts(RowsOf(m, outcome), c) <==>
              && AllInPlace(Created(id, account, at), steps) && Admissible(RowsOf(m, outcome), c)
              && (outcome == CreatedOutcome ==> m.deployment.phase == PendingFlat && m.deployment.createdAt == m.deployment.updatedAt == c.now)
  {
    hide Accepts, AllInPlace, Admissible, LeftByRun, StoreRun, WellShaped, Ruined, Created;
    CreatedIsShaped(id, account, at);
    RunKeepsOrRuins(Created(id, account, at), steps, m);
    AcceptsIffAdmissible(RowsOf(m, outcome), c);
    if AllInPlace(Created(id, account, at), steps) { ShapedIsLeft(m, outcome); } else { RuinedIsNotLeft(m, outcome); }
  }

  // ---------------------------------------------------------------------------------------------
  // In a transaction
  // ---------------------------------------------------------------------------------------------

  /** The SQLite repository makes the routing state within its transaction: evidence that leads to a state without one is rolled back. */
  ghost function CommitStep(m: Machine, s: Step): Option<Machine> {
    var next :- StoreStep(m, s);
    if s.AdvanceWith? && !Routable(next.state) then None else Some(next)
  }

  ghost function CommitRun(start: Machine, steps: seq<Step>): Option<Machine> {
    if steps == [] then Some(start)
    else
      var m :- CommitRun(start, steps[..|steps| - 1]);
      CommitStep(m, steps[|steps| - 1])
  }

  lemma RoutableIsReadable(s: ExactState)
    requires Routable(s)
    ensures Readable(s)
  {
    hide NonBlank, IsCanonicalNonNegative, IsCanonicalSigned, IsOpenQuantity, LedgerLaws.Amount, LedgerLaws.IsPrinted, Readable;
    SignedIsPrinted(s.realizedPnl);
    if s.lastFullExitPnl.Some? { SignedIsPrinted(s.lastFullExitPnl.value); }
    TextsIff(s);
  }

  lemma CommitStepReadable(m: Machine, s: Step, next: Machine)
    requires Readable(m.state) && CommitStep(m, s) == Some(next)
    ensures StoreStep(m, s) == Some(next) && Readable(next.state)
  {
    hide StoreAdvance, Routable, Readable, Emit, Insert, Fresh, NotBeforeEvidence, AfterEvidence, CreatedId, ActivationId, StartedId, CompletedId,
      FaultPayloadAccepted, NonBlank, IsRollbackFlat;
    if s.AdvanceWith? { RoutableIsReadable(next.state); }
  }

  lemma {:induction false} CommittedIsStored(start: Machine, steps: seq<Step>, m: Machine)
    requires Readable(start.state) && CommitRun(start, steps) == Some(m)
    ensures StoreRun(start, steps) == Some(m) && Readable(m.state)
  {
    hide Readable, StoreStep, CommitStep;
    if steps != [] {
      var front := steps[..|steps| - 1];
      var before := CommitRun(start, front).value;
      CommittedIsStored(start, front, before);
      CommitStepReadable(before, steps[|steps| - 1], m);
    }
  }

  lemma EmptyIsReadable()
    ensures Readable(EMPTY_STATE)
  {
    hide LedgerLaws.Amount;
    LedgerLaws.AmountOfZero();
  }

  /** What the SQLite repository has committed can always be read back; so only the order of its evidence, the identity and the clock remain. */
  lemma CommittedRunAcceptedIff(id: string, account: string, at: Timestamp, steps: seq<Step>, m: Machine, outcome: Outcome, c: Context)
    requires NonBlank(id) && NonBlank(account) && CommitRun(Created(id, account, at), steps) == Some(m)
    ensures Accepts(RowsOf(m, outcome), c) <==>
              && AllInPlace(Created(id, account, at), steps)
              && m.deployment.id == c.deploymentId && m.deployment.exchangeAccountId == c.exchangeAccountId
              && (forall e :: e in m.log ==> e.createdAt.epochNs <= c.now.epochNs)
              && (outcome == CreatedOutcome ==> m.deployment.phase == PendingFlat && m.deployment.createdAt == m.deployment.updatedAt == c.now)
  {
    hide Accepts, AllInPlace, Readable, CommitRun, StoreRun;
    EmptyIsReadable();
    CommittedIsStored(Created(id, account, at), steps, m);
    StoredRunAcceptedIff(id, account, at, steps, m, outcome, c);
  }
}
