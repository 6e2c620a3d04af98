/**
 A fill that is projected late. Both repositories store a sell that was executed before the rollback
 started, though it is projected after; the start-up validator then refuses the deployment for good.
 */
module RepositoryExample {
  import opened Basics
  import opened ExactDecimals
  import opened ExactDivision
  import opened DecimalText
  import opened KeyOrder
  import opened CandidateReplay
  import opened PilotAudit
  import opened PilotMachine
  import opened PilotReachability
  import opened LedgerLaws
  import opened LedgerAcceptance
  import opened StartupValidator
  import opened RoutableStates
  import opened StartupMain
  import opened RepositoryRuns

  function RecordOf(e: Evidence): EvidenceRecord { EvidenceRecord(e, HashOf("d", e), ExactV2) }

  function Bought(): EvidenceRecord { RecordOf(STALL_ENTRY) }

  /** Half of it sold at cost. */
  const LATE_SELL := Evidence("b", Timestamp(2, ""), Reduce, NoEntry, Filled, "1", "1", "0", "1")

  const AFTER_SELL := AFTER_ENTRY.(inventory := "1", costBasis := "1", lastEvidenceAt := Some(Timestamp(2, "")), lastEvidenceId := Some("b"), stateVersion := 2)

  function Sold(): EvidenceRecord { RecordOf(LATE_SELL) }

  function Newborn(): Machine { Created("d", "a", Timestamp(0, "0")) }

  /** The deployment is activated at 1 and buys at 1; it sells at 2, rollback starts at 5, and then the sell is projected. */
  function LateSteps(): seq<Step> {
    [Activate(Timestamp(1, "1"))] + [AdvanceWith(Bought())] + [StartRollback(Timestamp(5, "5"))] + [AdvanceWith(Sold())]
  }

  lemma CommitRunSnoc(start: Machine, steps: seq<Step>, s: Step, m: Machine)
    requires Readable(start.state) && CommitRun(start, steps) == Some(m)
    ensures CommitRun(start, steps + [s]) == CommitStep(m, s)
    ensures s.AdvanceWith? && !RecordInPlace(m, s.record) ==> !AllInPlace(start, steps + [s])
  {
    hide CommitStep, StoreStep, RecordInPlace, Readable;
    CommittedIsStored(start, steps, m);
    assert (steps + [s])[..|steps|] == steps;
  }

  /** Fills that leave whole amounts lead to a routing state. */
  lemma ExampleIsReadable()
    ensures Readable(EMPTY_STATE) && Readable(AFTER_ENTRY) && Readable(AFTER_SELL)
  {
    hide Amount, IsCanonicalNonNegative;
    ExampleAmounts();
  }

  lemma SellArithmetic()
    ensures Subtract(ExactDecimal(1, 0), ZERO) == Add(ZERO, ExactDecimal(1, 0)) == ExactDecimal(1, 0)
    ensures Subtract(ExactDecimal(1, 0), ExactDecimal(1, 0)) == ZERO
  {
    StallValues();
    hide Value, Add, Subtract;
    NormalFormUnique(Subtract(ExactDecimal(1, 0), ZERO), ExactDecimal(1, 0));
    NormalFormUnique(Add(ZERO, ExactDecimal(1, 0)), ExactDecimal(1, 0));
    NormalFormUnique(Subtract(ExactDecimal(1, 0), ExactDecimal(1, 0)), ZERO);
  }

  lemma SellFold()
    ensures Fold(AFTER_ENTRY, LATE_SELL, "1") == Some(AFTER_SELL)
  {
    hide IsCanonicalNonNegative, IsCanonicalSigned, ParseNonNegative, ParseSigned, Format, Add, Multiply, Quotient, Subtract,
      AbsDecimal, Value, Parse, IsDecimalText;
    StallTexts();
    StallArithmetic();
    SellArithmetic();
    CanonicalRoundTrip("0");
  }

  lemma SellSteps()
    ensures Advance(EMPTY_STATE, STALL_ENTRY) == Some(AFTER_ENTRY) && Advance(AFTER_ENTRY, LATE_SELL) == Some(AFTER_SELL)
  {
    hide IsCanonicalNonNegative, Format, RemainingAfter, Fold, Parse, ParseNonNegative, ParseSigned;
    StallTexts();
    StallRemaining();
    StallEntryFold();
    SellFold();
  }

  lemma FillsAreValid()
    ensures RecordValid(Bought(), "d") && RecordValid(Sold(), "d")
    ensures Advance(EMPTY_STATE, STALL_ENTRY) == Some(AFTER_ENTRY) && Advance(AFTER_ENTRY, LATE_SELL) == Some(AFTER_SELL)
  {
    hide IsCanonicalNonNegative, Fold, RemainingAfter;
    SellSteps();
    assert NonBlank("a") && NonBlank("b") by { assert "a"[0] == 'a' && "b"[0] == 'b'; }
  }

  /** The identifiers of the example's events differ. */
  lemma IdsDiffer()
    ensures ActivationId("d", 1) != CreatedId("d")
    ensures forall e :: e in {"a", "b"} ==> EvidenceEventId("d", e) !in {CreatedId("d"), ActivationId("d", 1), StartedId("d", 5)}
    ensures EvidenceEventId("d", "a") != EvidenceEventId("d", "b")
    ensures StartedId("d", 5) !in {CreatedId("d"), ActivationId("d", 1)}
  {
    hide CreatedId, ActivationId, EvidenceEventId, StartedId, CompletedId;
    IdentifierTieBreaks("d", "a", 1, 5, 0);
    IdentifierTieBreaks("d", "b", 1, 5, 0);
    EvidenceIdInjective("d", "a", "b");
    Ordered(ActivationId("d", 1), CreatedId("d"), EvidenceEventId("d", "a"), CompletedId("d", 0), StartedId("d", 5));
    Ordered(ActivationId("d", 1), CreatedId("d"), EvidenceEventId("d", "b"), CompletedId("d", 0), StartedId("d", 5));
  }

  lemma Ordered(a: string, c: string, e: string, r: string, s: string)
    requires LexLess(a, c) && LexLess(c, e) && LexLess(e, r) && LexLess(r, s)
    ensures a != c && e !in {c, a, s} && s !in {c, a}
  {
    hide LexLess;
    LexTransitive(a, c, e);
    LexTransitive(e, r, s);
    LexTransitive(c, e, s);
    LexTransitive(a, c, s);
    LexTotal(a, a);
    LexTotal(c, c);
    LexTotal(e, e);
  }

  lemma NewbornIsShaped()
    ensures WellShaped(Newborn())
  {
    hide WellShaped;
    assert "d"[0] == 'd' && "a"[0] == 'a';
    CreatedIsShaped("d", "a", Timestamp(0, "0"));
  }

  lemma NewbornIsCommitted()
    ensures CommitRun(Newborn(), []) == Some(Newborn()) && Newborn().state == EMPTY_STATE
  {
    hide CommitStep;
  }

  lemma AfterActivation() returns (m: Machine)
    ensures CommitRun(Newborn(), LateSteps()[..1]) == Some(m) && WellShaped(m)
    ensures m.deployment == Newborn().deployment.(phase := Active, activationAt := Some(Timestamp(1, "1")), activationEpochNs := Some(1), updatedAt := Timestamp(1, "1"))
    ensures m.evidence == [] && m.state == EMPTY_STATE && m.shape == Shape(None, 0, Open)
    ensures forall e :: e in m.log ==> e.id in {CreatedId("d"), ActivationId("d", 1)}
  {
    hide WellShaped, Emit, CreatedId, ActivationId, Readable, CommitRun;
    IdsDiffer();
    m := StoreStep(Newborn(), Activate(Timestamp(1, "1"))).value;
    EmitMembers(Newborn().log, ActivationEvent(m.deployment));
    NewbornIsShaped();
    NewbornIsCommitted();
    ExampleIsReadable();
    StoreStepInPlace(Newborn(), Activate(Timestamp(1, "1")), m);
    CommitRunSnoc(Newborn(), [], Activate(Timestamp(1, "1")), Newborn());
    assert LateSteps()[..1] == [] + [Activate(Timestamp(1, "1"))];
  }

  /** A record that fits the replay and leads to a readable state is committed. */
  lemma CommittedLast(m: Machine, r: EvidenceRecord, state: ExactState) returns (x: Machine)
    requires WellShaped(m) && RecordValid(r, m.deployment.id) && IsFill(r.evidence) && Advance(m.state, r.evidence) == Some(state) && Readable(state)
    requires m.evidence != [] ==> KeyLess(RecordKey(m.evidence[|m.evidence| - 1]), RecordKey(r))
    requires Fresh(m.log, EvidenceEventId(m.deployment.id, r.evidence.evidenceId))
    ensures CommitStep(m, AdvanceWith(r)) == Some(x) && StoreStep(m, AdvanceWith(r)) == Some(x)
    ensures x.deployment == m.deployment && x.evidence == m.evidence + [r] && x.state == state && x.shape.rollback == m.shape.rollback
    ensures forall e :: e in x.log ==> e in m.log || e.id == EvidenceEventId(m.deployment.id, r.evidence.evidenceId)
  {
    StoredLast(m, r, state);
    hide Replay, RecordValid, IsFill, RollbackOk, EndingOk, NonBlank, Project, Insert, Emit, Advance, KeyLess, RecordKey, LogOk, Fresh, EvidenceEventId, StoreAdvance,
      Routable, Readable;
    x := StoreAdvance(m, r).value;
    EmitMembers(m.log, AdvancedEvent(m.deployment, r, |m.evidence|, m.deployment.phase));
    CommittedIsRoutable(m, r, x);
  }

  lemma CommittedIsRoutable(m: Machine, r: EvidenceRecord, x: Machine)
    requires EvidenceOk(m) && RecordValid(r, m.deployment.id) && Advance(m.state, r.evidence) == Some(x.state)
    requires x.evidence == m.evidence + [r] && x.deployment == m.deployment && Readable(x.state)
    ensures Routable(x.state)
  {
    hide RecordValid, IsFill, Advance, StrictlySorted, Routable, Readable;
    ItemsSnoc(m.evidence, r);
    RoutableOfRecords(x.evidence, x.deployment.id, x.state);
  }

  lemma StoredLast(m: Machine, r: EvidenceRecord, state: ExactState)
    requires WellShaped(m) && RecordValid(r, m.deployment.id) && IsFill(r.evidence) && Advance(m.state, r.evidence) == Some(state)
    requires m.evidence != [] ==> KeyLess(RecordKey(m.evidence[|m.evidence| - 1]), RecordKey(r))
    requires Fresh(m.log, EvidenceEventId(m.deployment.id, r.evidence.evidenceId))
    ensures StoreAdvance(m, r).Some?
    ensures var x := StoreAdvance(m, r).value;
            x.deployment == m.deployment && x.evidence == m.evidence + [r] && x.state == state &&
            x.log == Emit(m.log, AdvancedEvent(m.deployment, r, |m.evidence|, m.deployment.phase)) && x.shape.rollback == m.shape.rollback && x.shape.ending == m.shape.ending
  {
    hide Replay, RecordValid, IsFill, RollbackOk, EndingOk, NonBlank, Project, Insert, Emit, Advance, KeyLess, RecordKey, LogOk, Fresh, EvidenceEventId;
    ProjectOfLast(m, r);
    VersionAdvances(m, r);
  }

  lemma AfterPurchase() returns (m: Machine)
    ensures CommitRun(Newborn(), LateSteps()[..2]) == Some(m) && WellShaped(m)
    ensures m.deployment == Newborn().deployment.(phase := Active, activationAt := Some(Timestamp(1, "1")), activationEpochNs := Some(1), updatedAt := Timestamp(1, "1"))
    ensures m.evidence == [Bought()] && m.state == AFTER_ENTRY && m.shape.rollback.None?
    ensures forall e :: e in m.log ==> e.id in {CreatedId("d"), ActivationId("d", 1), EvidenceEventId("d", "a")}
  {
    hide WellShaped, Emit, CreatedId, ActivationId, EvidenceEventId, Advance, RecordValid, StoreAdvance, CommitRun, CommitStep, Readable;
    IdsDiffer();
    FillsAreValid();
    ExampleIsReadable();
    var before := AfterActivation();
    m := CommittedLast(before, Bought(), AFTER_ENTRY);
    StoreStepInPlace(before, AdvanceWith(Bought()), m);
    CommitRunSnoc(Newborn(), LateSteps()[..1], AdvanceWith(Bought()), before);
    assert LateSteps()[..2] == LateSteps()[..1] + [AdvanceWith(Bought())];
  }

  lemma AfterStart() returns (m: Machine)
    ensures CommitRun(Newborn(), LateSteps()[..3]) == Some(m) && WellShaped(m)
    ensures m.deployment.id == "d" && m.deployment.phase == Draining && m.shape.rollback == Some(Timestamp(5, "5"))
    ensures m.evidence == [Bought()] && m.state == AFTER_ENTRY
    ensures forall e :: e in m.log ==> e.id in {CreatedId("d"), ActivationId("d", 1), EvidenceEventId("d", "a"), StartedId("d", 5)}
  {
    hide WellShaped, Emit, CreatedId, ActivationId, EvidenceEventId, StartedId, Advance, RecordValid, CommitRun, Readable;
    IdsDiffer();
    ExampleIsReadable();
    var before := AfterPurchase();
    m := StoreStep(before, StartRollback(Timestamp(5, "5"))).value;
    StoreStepInPlace(before, StartRollback(Timestamp(5, "5")), m);
    EmitMembers(before.log, StartedEvent(before.deployment, Timestamp(5, "5"), 1));
    CommitRunSnoc(Newborn(), LateSteps()[..2], StartRollback(Timestamp(5, "5")), before);
    assert LateSteps()[..3] == LateSteps()[..2] + [StartRollback(Timestamp(5, "5"))];
  }

  /** The late sell is committed; from then on the start-up validator refuses the deployment, whatever the clock. */
  lemma LateFillStoredAndRefused() returns (m: Machine)
    ensures CommitRun(Newborn(), LateSteps()) == Some(m)
    ensures m.deployment.phase == Draining && m.evidence == [Bought(), Sold()]
    ensures forall outcome, c :: !Accepts(RowsOf(m, outcome), c)
  {
    hide WellShaped, Emit, CreatedId, ActivationId, EvidenceEventId, StartedId, Advance, RecordValid, CommitRun, CommitStep, StoreAdvance, Accepts, AllInPlace,
      Readable;
    IdsDiffer();
    FillsAreValid();
    ExampleIsReadable();
    var before := AfterStart();
    m := CommittedLast(before, Sold(), AFTER_SELL);
    CommitRunSnoc(Newborn(), LateSteps()[..3], AdvanceWith(Sold()), before);
    assert LateSteps() == LateSteps()[..3] + [AdvanceWith(Sold())];
    assert NonBlank("d") && NonBlank("a") by { assert "d"[0] == 'd' && "a"[0] == 'a'; }
    forall outcome, c ensures !Accepts(RowsOf(m, outcome), c) {
      CommittedRunAcceptedIff("d", "a", Timestamp(0, "0"), LateSteps(), m, outcome, c);
    }
  }
}
