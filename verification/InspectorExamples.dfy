/**
 Lives that the inspector accepts and the start-up validator does not: one for each condition that the
 inspector leaves out, and one that leaves a quantity within the tolerance.
 */
module InspectorExamples {
  import opened Basics
  import opened ExactDecimals
  import opened DecimalText
  import opened KeyOrder
  import opened CandidateReplay
  import opened LedgerLaws
  import opened PilotAudit
  import opened StartupValidator
  import opened StartupMain
  import opened ReadinessInspector
  import opened InspectorStrictness

  // ---------------------------------------------------------------------------------------------
  // The conditions are needed
  // ---------------------------------------------------------------------------------------------

  /** A deployment that faulted before its activation, under a fault identifier that is one blank. */
  function BlankFault(): Authority {
    var created, faulted := Timestamp(1, "1"), Timestamp(2, "2");
    var d := Deployment("d", "a", PausedFault, None, None, created, faulted);
    Authority(ExistingOutcome, d, EMPTY_STATE, [],
      [CreatedEvent(d), FaultEvent(d, " ", faulted, PendingFlat, 0, FaultPayload(StaleSnapshot, "{}", JsonObject))])
  }

  function Only(e: AuditEvent, t: EventType): seq<AuditEvent> { if e.eventType == t then [e] else [] }

  lemma OfTypeOne(e: AuditEvent, t: EventType)
    ensures OfType([e], t) == Only(e, t)
  {
    assert [e][1..] == [];
  }

  lemma {:induction false} OfTypeSnoc(log: seq<AuditEvent>, e: AuditEvent, t: EventType)
    ensures OfType(log + [e], t) == OfType(log, t) + Only(e, t)
  {
    hide OfType;
    OfTypeConcat(log, [e], t);
    OfTypeOne(e, t);
  }

  /** The selections of a log of four events. */
  lemma OfTypeFour(w: AuditEvent, x: AuditEvent, y: AuditEvent, z: AuditEvent, t: EventType)
    ensures OfType([w, x], t) == Only(w, t) + Only(x, t)
    ensures OfType([w, x, y], t) == Only(w, t) + Only(x, t) + Only(y, t)
    ensures OfType([w, x, y, z], t) == Only(w, t) + Only(x, t) + Only(y, t) + Only(z, t)
  {
    hide OfType, Only;
    OfTypeOne(w, t);
    OfTypeSnoc([w], x, t);
    OfTypeSnoc([w, x], y, t);
    OfTypeSnoc([w, x, y], z, t);
    assert [w] + [x] == [w, x] && [w, x] + [y] == [w, x, y] && [w, x, y] + [z] == [w, x, y, z];
  }

  /** Inspected, but not beyond: no run left it, and the start-up validator throws. */
  lemma InspectedOnly(a: Authority, checkedAt: Timestamp)
    requires Inspects(a, checkedAt) && !BeyondInspection(a)
    ensures !LeftByRun(a) && forall c :: !Accepts(a, c)
  {
    hide Inspects, BeyondInspection, LeftByRun, Accepts, Admissible;
    InspectedIsRunIff(a, checkedAt);
    forall c ensures !Accepts(a, c) { AcceptsIffAdmissible(a, c); }
  }

  lemma NamesAreNotBlank()
    ensures NonBlank("d") && NonBlank("a") && Items([]) == [] && StateRowRead(EMPTY_STATE)
  {
    hide IsCanonicalSigned, IsCanonicalNonNegative;
    assert "d"[0] == 'd' && "a"[0] == 'a';
    AmountOfZero();
  }

  lemma TwoEvents(x: AuditEvent, y: AuditEvent)
    requires x.eventType.DeploymentCreated? && y.eventType.FaultPaused?
    ensures OfType([x, y], DeploymentCreated) == [x] && OfType([x, y], FaultPaused) == [y]
    ensures forall t :: t != DeploymentCreated && t != FaultPaused ==> OfType([x, y], t) == []
  {
    hide OfType;
    forall t ensures OfType([x, y], t) == Only(x, t) + Only(y, t) { OfTypeFour(x, y, x, y, t); }
  }

  /** The inspector accepts it; no run left it, and the start-up validator throws. */
  lemma BlankFaultInspectedOnly()
    ensures Inspects(BlankFault(), Timestamp(3, "3")) && !LeftByRun(BlankFault())
    ensures forall c :: !Accepts(BlankFault(), c)
  {
    hide Inspects, LeftByRun, Accepts;
    var a := BlankFault();
    BlankFaultInspected();
    TwoEvents(a.events[0], a.events[1]);
    assert a.events[1] in OfType(a.events, FaultPaused) && !NonBlank(a.events[1].id);
    InspectedOnly(a, Timestamp(3, "3"));
  }

  lemma BlankFaultInspected()
    ensures Inspects(BlankFault(), Timestamp(3, "3"))
  {
    hide OfType, IsCanonicalNonNegative, StateRowRead;
    var a := BlankFault();
    TwoEvents(a.events[0], a.events[1]);
    NamesAreNotBlank();
    assert a.events[0].id != a.events[1].id by { assert |a.events[0].id| > 1; }
  }

  /** A deployment that was completed before the activation that its log states. */
  function LateActivation(): Authority {
    var created, completed, activated := Timestamp(1, "1"), Timestamp(2, "2"), Timestamp(3, "3");
    var d := Deployment("d", "a", Disabled, Some(activated), Some(3), created, completed);
    Authority(ExistingOutcome, d, EMPTY_STATE, [], [CreatedEvent(d), CompletedEvent(d, completed, Active, 0), ActivationEvent(d)])
  }

  /** The inspector accepts it; no run left it, and the start-up validator throws. */
  lemma LateActivationInspectedOnly()
    ensures Inspects(LateActivation(), Timestamp(3, "3")) && !LeftByRun(LateActivation())
    ensures forall c :: !Accepts(LateActivation(), c)
  {
    hide Inspects, LeftByRun, Accepts;
    LateActivationInspected();
    InspectedOnly(LateActivation(), Timestamp(3, "3"));
  }

  lemma LateActivationEvents()
    ensures var log := LateActivation().events;
            OfType(log, DeploymentCreated) == [log[0]] && OfType(log, RollbackCompleted) == [log[1]] && OfType(log, PhaseTransition) == [log[2]] &&
            OfType(log, StateAdvanced) == [] && OfType(log, RollbackStarted) == [] && OfType(log, FaultPaused) == []
  {
    hide OfType;
    var log := LateActivation().events;
    forall t ensures OfType(log, t) == Only(log[0], t) + Only(log[1], t) + Only(log[2], t) { OfTypeFour(log[0], log[1], log[2], log[2], t); }
  }

  lemma LateActivationRows()
    ensures RowsAccepted(LateActivation().events, LateActivation().deployment, EMPTY_STATE, Timestamp(3, "3"))
  {
    hide EpochText;
    IdsOfTypesDiffer("d", 3, 0, 2);
  }

  lemma LateActivationLifecycle()
    ensures LifecycleInspected(LateActivation().deployment, EMPTY_STATE, [], LateActivation().events)
  {
    hide OfType, IndexOf, EpochText;
    LateActivationEvents();
  }

  lemma LateActivationInspected()
    ensures Inspects(LateActivation(), Timestamp(3, "3"))
  {
    hide LifecycleInspected, RowsAccepted, EpochText, StateRowRead;
    LateActivationRows();
    LateActivationLifecycle();
    NamesAreNotBlank();
  }

  /** Identifiers of different types differ. */
  lemma IdsOfTypesDiffer(d: string, activated: int, started: int, completed: int)
    ensures CreatedId(d) != ActivationId(d, activated) && CreatedId(d) != StartedId(d, started) && CreatedId(d) != CompletedId(d, completed)
    ensures ActivationId(d, activated) != StartedId(d, started) && ActivationId(d, activated) != CompletedId(d, completed)
  {
    IdentifierTieBreaks(d, "", activated, started, completed);
    LexTotal(CreatedId(d), CreatedId(d));
    LexTotal(ActivationId(d, activated), ActivationId(d, activated));
    LexTransitive(CreatedId(d), EvidenceEventId(d, ""), CompletedId(d, completed));
    LexTransitive(CreatedId(d), CompletedId(d, completed), StartedId(d, started));
    LexTransitive(ActivationId(d, activated), CreatedId(d), CompletedId(d, completed));
  }

  /** A deployment that faulted at the very instant of its rollback start. */
  function FaultAtStart(): Authority {
    var created, activated, started := Timestamp(1, "1"), Timestamp(2, "2"), Timestamp(3, "3");
    var d := Deployment("d", "a", PausedFault, Some(activated), Some(2), created, started);
    Authority(ExistingOutcome, d, EMPTY_STATE, [],
      [CreatedEvent(d), ActivationEvent(d), StartedEvent(d, started, 0),
       FaultEvent(d, "e", started, Draining, 0, FaultPayload(StaleSnapshot, "{}", JsonObject))])
  }

  /** The inspector accepts it; no run left it, and the start-up validator throws. */
  lemma FaultAtStartInspectedOnly()
    ensures Inspects(FaultAtStart(), Timestamp(3, "3")) && !LeftByRun(FaultAtStart())
    ensures forall c :: !Accepts(FaultAtStart(), c)
  {
    hide Inspects, LeftByRun, Accepts, OfType;
    var log := FaultAtStart().events;
    FaultAtStartInspected();
    FaultAtStartEvents();
    assert log[3] in OfType(log, FaultPaused) && log[2] in OfType(log, RollbackStarted);
    InspectedOnly(FaultAtStart(), Timestamp(3, "3"));
  }

  lemma FaultAtStartEvents()
    ensures var log := FaultAtStart().events;
            OfType(log, DeploymentCreated) == [log[0]] && OfType(log, PhaseTransition) == [log[1]] && OfType(log, RollbackStarted) == [log[2]] &&
            OfType(log, FaultPaused) == [log[3]] && OfType(log, StateAdvanced) == [] && OfType(log, RollbackCompleted) == []
  {
    hide OfType;
    var log := FaultAtStart().events;
    forall t ensures OfType(log, t) == Only(log[0], t) + Only(log[1], t) + Only(log[2], t) + Only(log[3], t) { OfTypeFour(log[0], log[1], log[2], log[3], t); }
  }

  lemma FaultAtStartRows()
    ensures RowsAccepted(FaultAtStart().events, FaultAtStart().deployment, EMPTY_STATE, Timestamp(3, "3"))
  {
    hide EpochText;
    var log := FaultAtStart().events;
    IdentifierTieBreaks("d", "", 2, 3, 0);
    IdsOfTypesDiffer("d", 2, 3, 0);
    assert log[3].id == "e" && log[2].id[0] == 'd' && log[1].id[0] == 'd' && log[0].id[0] == 'd';
    assert LexLess(log[2].id, log[3].id);
  }

  lemma FaultAtStartLifecycle()
    ensures LifecycleInspected(FaultAtStart().deployment, EMPTY_STATE, [], FaultAtStart().events)
  {
    hide OfType, IndexOf, EpochText, StateEventsBefore;
    var log := FaultAtStart().events;
    FaultAtStartEvents();
    FaultAtStartRows();
    PositionOf(log, 1);
    PositionOf(log, 2);
    PositionOf(log, 3);
    NoStateEventsBefore(log, log[2]);
  }

  lemma FaultAtStartInspected()
    ensures Inspects(FaultAtStart(), Timestamp(3, "3"))
  {
    hide LifecycleInspected, RowsAccepted, EpochText, StateRowRead;
    FaultAtStartRows();
    FaultAtStartLifecycle();
    NamesAreNotBlank();
  }

  lemma {:induction false} PositionOf(log: seq<AuditEvent>, i: nat)
    requires DistinctIds(log) && i < |log|
    ensures IndexOf(log, log[i]) == i
  {
    if i > 0 {
      assert log[0].id != log[i].id;
      PositionOf(log[1..], i - 1);
    }
  }

  lemma NoStateEventsBefore(log: seq<AuditEvent>, mark: AuditEvent)
    requires OfType(log, StateAdvanced) == []
    ensures StateEventsBefore(log, mark) == 0
  {
    var i := IndexOf(log, mark);
    OfTypeConcat(log[..i], log[i..], StateAdvanced);
    assert log == log[..i] + log[i..];
  }

  // ---------------------------------------------------------------------------------------------
  // A quantity within the tolerance
  // ---------------------------------------------------------------------------------------------

  /** Buying the tolerance, 10^-12, for 1. */
  function DustFill(): Evidence {
    Evidence("e", Timestamp(3, "3"), Enter, Pullback, Filled, Format(TOLERANCE), "1", "0", Format(TOLERANCE))
  }

  function AfterDust(): ExactState {
    EMPTY_STATE.(inventory := Format(TOLERANCE), costBasis := "1", lastEntryPath := Some(Pullback),
      lastEvidenceAt := Some(Timestamp(3, "3")), lastEvidenceId := Some("e"), stateVersion := 1)
  }

  /** An active deployment that has bought as much as the tolerance and nothing else. */
  function DustBought(): Authority {
    var created, activated := Timestamp(1, "1"), Timestamp(2, "2");
    var d := Deployment("d", "a", Active, Some(activated), Some(2), created, activated);
    var r := EvidenceRecord(DustFill(), HashOf("d", DustFill()), ExactV2);
    Authority(ExistingOutcome, d, AfterDust(), [r], [CreatedEvent(d), ActivationEvent(d), AdvancedEvent(d, r, 0, Active)])
  }

  lemma DustText()
    ensures ParseNonNegative(Format(TOLERANCE)) == Some(TOLERANCE) && Format(TOLERANCE) != "0"
    ensures Amount(Format(TOLERANCE)) == 0.000000000001
  {
    hide Format, Parse, IsCanonicalNonNegative, Unsigned;
    TolerancePositive();
    ParseOfFormat(TOLERANCE);
    NormalFormUnique(Normalize(TOLERANCE), TOLERANCE);
    NonNegativeGrammar(TOLERANCE);
    AmountOfFormat(TOLERANCE);
    AmountOfZero();
  }

  lemma DustArithmetic()
    ensures Add(ZERO, TOLERANCE) == TOLERANCE && Add(ExactDecimal(1, 0), ZERO) == ExactDecimal(1, 0) == Add(ZERO, ExactDecimal(1, 0))
  {
    StallValues();
    hide Value, Add;
    NormalFormUnique(Add(ZERO, TOLERANCE), TOLERANCE);
    NormalFormUnique(Add(ExactDecimal(1, 0), ZERO), ExactDecimal(1, 0));
    NormalFormUnique(Add(ZERO, ExactDecimal(1, 0)), ExactDecimal(1, 0));
  }

  lemma DustFold()
    ensures Fold(EMPTY_STATE, DustFill(), Format(TOLERANCE)) == Some(AfterDust())
    ensures RemainingAfter("0", Enter, Format(TOLERANCE)) == Some(Format(TOLERANCE))
  {
    hide IsCanonicalNonNegative, IsCanonicalSigned, ParseNonNegative, ParseSigned, Format, Add, RemovedCost, Subtract, Value, Parse, IsDecimalText;
    StallTexts();
    DustText();
    DustArithmetic();
  }

  lemma DustReplays()
    ensures Replay([DustFill()]) == Some(AfterDust()) && Project([DustFill()]) == Some(AfterDust())
    ensures IsFill(DustFill()) && MaterialAccepted(DustFill())
  {
    hide IsCanonicalNonNegative, Format, RemainingAfter, Fold, Parse, IsDecimalText;
    StallTexts();
    DustText();
    DustFold();
    assert "e"[0] == 'e';
    assert [DustFill()][..0] == [];
    SortOfSorted([DustFill()], EvidenceKey);
  }

  lemma DustRow()
    ensures StateRowRead(AfterDust())
  {
    hide IsCanonicalNonNegative, IsCanonicalSigned, Format, Parse, IsDecimalText;
    StallTexts();
    DustText();
  }

  lemma DustEvents()
    ensures var log := DustBought().events;
            OfType(log, DeploymentCreated) == [log[0]] && OfType(log, PhaseTransition) == [log[1]] && OfType(log, StateAdvanced) == [log[2]] &&
            OfType(log, RollbackCompleted) == [] && OfType(log, RollbackStarted) == [] && OfType(log, FaultPaused) == []
  {
    hide OfType, Format;
    var log := DustBought().events;
    forall t ensures OfType(log, t) == Only(log[0], t) + Only(log[1], t) + Only(log[2], t) { OfTypeFour(log[0], log[1], log[2], log[2], t); }
  }

  lemma DustRows()
    ensures RowsAccepted(DustBought().events, DustBought().deployment, AfterDust(), Timestamp(3, "3"))
  {
    hide EpochText, Format, LexLess;
    IdsOfTypesDiffer("d", 2, 0, 0);
    EvidenceIdDiffers("d", "e", 2);
  }

  lemma EvidenceIdDiffers(d: string, evidenceId: string, activated: int)
    ensures EvidenceEventId(d, evidenceId) != CreatedId(d) && EvidenceEventId(d, evidenceId) != ActivationId(d, activated)
  {
    hide LexLess, CreatedId, ActivationId, EvidenceEventId, StartedId, CompletedId;
    IdentifierTieBreaks(d, evidenceId, activated, 0, 0);
    LexTransitive(ActivationId(d, activated), CreatedId(d), EvidenceEventId(d, evidenceId));
    LexTotal(CreatedId(d), CreatedId(d));
    LexTotal(ActivationId(d, activated), ActivationId(d, activated));
  }

  lemma DustLifecycle()
    ensures LifecycleInspected(DustBought().deployment, AfterDust(), DustBought().evidence, DustBought().events)
  {
    hide OfType, IndexOf, EpochText, Format, EvidenceEventId;
    DustEvents();
  }

  lemma DustReplayInspected()
    ensures ReplayInspected(DustBought().deployment, AfterDust(), DustBought().evidence)
  {
    hide StateRowRead, Format, MaterialAccepted, Project, KeyLess;
    DustRow();
    DustReplays();
    assert Items(DustBought().evidence) == [DustFill()];
  }

  lemma DustInspected()
    ensures Inspects(DustBought(), Timestamp(3, "3"))
  {
    hide LifecycleInspected, RowsAccepted, ReplayInspected, EvidenceEventId, Format, Project;
    DustRows();
    DustLifecycle();
    DustReplayInspected();
    NamesAreNotBlank();
  }

  /** A run left it and the inspector accepts it, yet the start-up validator throws, whatever the clock. */
  lemma DustInspectedOnly()
    ensures Inspects(DustBought(), Timestamp(3, "3")) && LeftByRun(DustBought())
    ensures forall c :: !Accepts(DustBought(), c)
  {
    hide Inspects, LeftByRun, Accepts, Format, OfType, Amount;
    DustInspected();
    DustText();
    DustEvents();
    InspectedIsRunIff(DustBought(), Timestamp(3, "3"));
    forall c ensures !Accepts(DustBought(), c) { AcceptsIffLeftByRun(DustBought(), c); }
  }
}
