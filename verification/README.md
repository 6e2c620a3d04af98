# AutoTrade Upbit: a verified model

AutoTrade Upbit trades on one exchange account. This project models the parts of it whose mistakes
cost money or authority, and proves what they promise:

- **Exact ledger.** Decimals of arbitrary precision, their texts, and the replay that folds execution
  evidence into cost basis, inventory and profit (`Decimals`, `Division`, `DecimalText`, `KeyOrder`,
  `CandidateReplay`, `LedgerLaws`, `LedgerAcceptance`).
- **Pilot life and audit log.** A phase machine that emits a log sorted by instant and identifier, the
  start-up validator and the offline inspector that read it back, the rollout driver with its
  compare-and-set, the verdicts about absent orders, and the windows of the history recovery
  (`PilotAudit`, `PilotMachine`, `PilotReachability`, `RoutableStates`, `Startup*`, `AcceptedLogs`,
  `RepositoryRuns`, `RepositoryExample`, `ReadinessInspector`, `InspectorStrictness`,
  `InspectorCompleteness`, `InspectorExamples`, `ForwardRollout`, `OrderAbsence`, `OrderVerdicts`,
  `HistoryWindows`).
- **Canonical JSON.** The text by which two readings of the same authority are compared (`JsonNumber`,
  `JsonText`, `CanonicalJson`, `JsonForms`, `SnapshotText`).
- **Runtime ownership.** Store, process lock, guard, heartbeat and shutdown, and the protocol of many
  runtimes over one pipe and one store (`OwnershipStore`, `ProcessLock`, `OwnershipGuard`,
  `RuntimeGuard`, `RuntimeProtocol`, `RuntimeHandover`, `RuntimeShutdown`, `Heartbeat`,
  `HeartbeatObject`).
- **Scheduler.** The queue of ticks with its one remembered batch, and the marks of running markets
  (`Scheduler`, `SchedulerBatches`, `SchedulerMarkets`, `SchedulerObject`).

Amounts of money are related to real numbers by `ExactDecimals.Value`; failures of the source (thrown
errors) are `None` or an error value. An `await` is a point where every other step may come in
between; steps of a run are what happens between two awaits. Objects that the source updates in place
are classes whose methods are proved to do what a function says; the runs are made of those
functions.

## What the proofs found

- A realized profit that is not zero and below 1 in magnitude is printed but cannot be read back: a
  state with such a profit accepts no further fill (`LedgerLaws.NextFillIff`,
  `LedgerLaws.HalfProfitStalls`). The in-memory repository stores it and throws only then; the SQLite
  repository rolls it back, so that the fill that would lead there is never recorded
  (`RepositoryRuns.CommittedRunAcceptedIff`).
- Division by a negative divisor loses the sign (`ExactDivision.DivisionCorrectIff`); the only caller
  divides by a positive quantity.
- The repositories look neither at the phase nor at the order of evidence, and the evidence service
  looks at the phase alone (lines 88 and 236 of `src/modules/execution/candidate-evidence-service.ts`).
  A fill executed before the rollback start and projected while DRAINING is committed, and from then
  on the start-up validator refuses the deployment for good (`RepositoryRuns.StoredRunAcceptedIff`,
  `RepositoryExample.LateFillStoredAndRefused`).
- The offline inspector accepts lives that the start-up validator does not: an activation after the
  last update, a fault at the instant of the rollback start, a fault whose identifier is blank, and a
  position within the tolerance; each has its example in `InspectorExamples`, and nothing else
  tells them apart but the configured identity and a row that another start has created
  (`InspectorStrictness.InspectedIsAcceptedIff`). The other way round the inspector refuses lives that
  start-up accepts: an activation at the instant of the creation, a record at the instant of the
  activation, and an event that sorts after a fault of the same instant; nothing else
  (`InspectorCompleteness.AcceptedIsInspectedIff`).
- A JSON record that looks like the tag of a large or odd number is taken for that number
  (`CanonicalJson.RecoveryTextIff`), and the preparation's text does not tell a negative zero from zero
  (`SnapshotText.SummaryTextIff`).
- A market is marked idle although a run of it is still under way when one of its ticks is deferred, or
  when the scheduler is started and its preflight blocks; then, and only then, a second run may begin
  beside it (`SchedulerMarkets.ExposedIff`, `SchedulerMarkets.SecondRunBeginsIff`,
  `SchedulerMarkets.TwoRunsAtOnce`).
- The scheduler's one remembered key submits at most one live order per batch exactly for queues in
  which the ticks of each batch stand together (`SchedulerBatches.OneLiveOrderPerBatchIff`).
- An order whose rejection is of local origin (a dry run) is definitively absent for the recovery and
  still blocking for the classifier (`OrderAbsence.AbsentAgreesIff`,
  `OrderAbsence.LocalRejectionStillBlocks`).
- Only the shutdown of an owned application looks at quiescence before it frees the lock; the
  start-up failure path always frees it (`RuntimeShutdown`).

## Model

| member | source | states |
|---|---|---|
| ExactDecimals.NormalizeExactDecimal | src/inspection/position-guard-pilot-readiness.ts:2309-2317 | the loop returns the decimal of equal value that has no trailing zero, whatever the input |
| ExactDecimals.NormalizeCanonical | src/inspection/position-guard-pilot-readiness.ts:2309-2317 | two decimals normalize to the same decimal exactly when their values are equal |
| ExactDecimals.NormalFormUnique | src/inspection/position-guard-pilot-readiness.ts:2309-2317 | a number has one normal form |
| ExactDecimals.Add | src/inspection/position-guard-pilot-readiness.ts:2319-2327 | the value of the result is the sum of the values, in normal form |
| ExactDecimals.Subtract | src/inspection/position-guard-pilot-readiness.ts:2329-2337 | the value of the result is the difference of the values |
| ExactDecimals.Multiply | src/inspection/position-guard-pilot-readiness.ts:2339-2341 | the value of the result is the product of the values |
| ExactDecimals.Compare | src/inspection/position-guard-pilot-readiness.ts:2372-2377 | negative, zero or positive exactly as the values compare |
| ExactDivision.GreatestCommonDivisor | src/inspection/position-guard-pilot-readiness.ts:2399-2408 | Euclid's loop computes the greatest common divisor, and 1 for two zeros |
| ExactDivision.GcdBezout | src/inspection/position-guard-pilot-readiness.ts:2399-2408 | the gcd divides both numbers and is an integer combination of them |
| ExactDivision.StripTwos | src/inspection/position-guard-pilot-readiness.ts:2343-2370 | the first loop finds the exact number of factors 2 and what is left without them |
| ExactDivision.StripFives | src/inspection/position-guard-pilot-readiness.ts:2343-2370 | the second loop does the same for 5, and keeps an odd number odd |
| ExactDivision.TerminatingDenominator | src/inspection/position-guard-pilot-readiness.ts:2343-2370 | a denominator coprime to its numerator must divide the power of ten itself (Gauss) |
| ExactDivision.TerminatingFraction | src/inspection/position-guard-pilot-readiness.ts:2343-2370 | a reduced fraction becomes its decimal if only 2 and 5 divide the denominator, and otherwise no decimal is that fraction |
| ExactDivision.DivideExactDecimals | src/inspection/position-guard-pilot-readiness.ts:2343-2370 | answers the decimal q with q times the divisor's magnitude equal to the dividend, and fails if and only if no finite decimal satisfies that |
| ExactDivision.DivisionCorrectIff | src/inspection/position-guard-pilot-readiness.ts:2343-2370 | for a divisor of either sign, the answer is the true quotient exactly when the divisor is positive or the dividend is zero |
| ExactDivision.NegativeDivisorLosesSign | src/inspection/position-guard-pilot-readiness.ts:2343-2370 | the concrete failing input: 1 divided by -1 comes out as 1 |
| DecimalText.ParseOfFormat | src/inspection/position-guard-pilot-readiness.ts:2282-2307 | parsing a printed decimal gives its normal form, whatever its sign |
| DecimalText.FormatOfParse | src/inspection/position-guard-pilot-readiness.ts:2282-2307 | printing a parsed decimal text gives the text back, except for minus zero and only for it |
| DecimalText.CanonicalRoundTrip | src/inspection/position-guard-pilot-readiness.ts:2131-2132 | printing after parsing is the identity on both canonical grammars |
| DecimalText.TextDeterminedByValue | src/inspection/position-guard-pilot-readiness.ts:2131-2132 | canonical texts of equal value are equal |
| DecimalText.NonNegativeGrammar | src/inspection/position-guard-pilot-readiness.ts:2131-2131 | the non-negative grammar accepts a printed decimal exactly when its value is not negative |
| DecimalText.SignedGrammar | src/inspection/position-guard-pilot-readiness.ts:2132-2132 | the signed grammar accepts a printed decimal exactly when its value is 0 or at least 1 in magnitude |
| DecimalText.HalfIsPrintedButNotSigned | src/inspection/position-guard-pilot-readiness.ts:2132-2132 | one half is printed by the formatter and refused by the signed grammar |
| CandidateReplay.AdvanceExactCandidateState | src/inspection/position-guard-pilot-readiness.ts:2171-2247 | one step of the replay is the specified step, with the same failures |
| CandidateReplay.FoldFill | src/inspection/position-guard-pilot-readiness.ts:2196-2247 | the arithmetic of one fill: buy, partial sell, full exit |
| CandidateReplay.ProjectExactCandidateState | src/inspection/position-guard-pilot-readiness.ts:2153-2169 | sorting and folding is the replay of the chronologically sorted evidence, failing where it fails |
| CandidateReplay.ReplayFailsOnward | src/inspection/position-guard-pilot-readiness.ts:2153-2169 | once a beginning of the history fails, the whole fails |
| LedgerLaws.AdvanceBooked | src/inspection/position-guard-pilot-readiness.ts:2171-2247 | what each accepted step does to inventory, cost and profit as numbers; only fills change them, and the version counts fills |
| LedgerLaws.CashConservation | src/inspection/position-guard-pilot-readiness.ts:2153-2247 | along every successful replay cost basis minus realized profit equals what the open episode's buys cost minus what its sells brought in, inventory is buys minus sells, neither is negative, and the version is the number of fills |
| LedgerLaws.FullExitProfit | src/inspection/position-guard-pilot-readiness.ts:2204-2247 | a full exit records exactly the net cash flow of its episode, leaves the flat state, and drops a residue of at most 10^-12 |
| LedgerLaws.PartialSellKeepsAverageCost | src/inspection/position-guard-pilot-readiness.ts:2204-2247 | a partial sell preserves the average cost exactly: C' times Q equals C times Q' |
| LedgerLaws.SellShrinks | src/inspection/position-guard-pilot-readiness.ts:2180-2217 | a sell needs an open position and leaves strictly less of it |
| LedgerLaws.NextFillIff | src/inspection/position-guard-pilot-readiness.ts:2196-2203 | after an accepted history a further fill can be accepted exactly when the realized profit is 0 or at least 1 in magnitude |
| LedgerLaws.HalfProfitStalls | src/inspection/position-guard-pilot-readiness.ts:2196-2203 | a concrete history after which no fill is accepted any more |
| LedgerAcceptance.RemainingIff | src/inspection/position-guard-pilot-readiness.ts:2249-2268 | what a fill must state as remaining, in amounts: the sum for a buy; for a sell of at most 10^-12 more than there is, nothing within 10^-12 of zero and otherwise the difference |
| LedgerAcceptance.FillAcceptedIff | src/inspection/position-guard-pilot-readiness.ts:2171-2268 | a fill is taken if and only if its texts are canonical, it is later than the last one, the profit is 0 or at least 1 in magnitude, it enters a flat position, adds to an open one or sells of an open one no more than there is up to 10^-12, it states what remains, and the cost share of a partial sell is a finite decimal |
| LedgerAcceptance.NoFillAcceptedIff | src/inspection/position-guard-pilot-readiness.ts:2171-2187 | evidence without a fill is taken if and only if it is canonical, later, and states the quantity there is; it changes nothing |
| LedgerAcceptance.EnterAndExit | src/inspection/position-guard-pilot-readiness.ts:2153-2247 | a concrete history: 2 bought for 2 and sold for 3 end flat with a recorded profit of 1 |
| LedgerLaws.ProjectionOrderFree | src/inspection/position-guard-pilot-readiness.ts:2153-2169 | every permutation of the evidence gives the same result or failure |
| LedgerLaws.ProjectionIncremental | src/inspection/position-guard-pilot-readiness.ts:2153-2187 | appending the chronologically last item equals one step |
| KeyOrder.SortOrderFree | src/inspection/position-guard-pilot-readiness.ts:2379-2389 | the sort by instant and identifier does not depend on the listing |
| KeyOrder.LexLessIff | src/inspection/position-guard-pilot-readiness.ts:2379-2389 | one identifier is before another exactly if it is smaller at the first difference, or ends before it |
| PilotAudit.IdentifierTieBreaks | src/app/position-guard-pilot-initializer.ts:442-508 | at one instant the identifiers of a deployment sort as activation, created, evidence, rollback_completed, rollback_started |
| PilotMachine.EmitOk | src/modules/db/repositories/in-memory-candidate-pilot-repository.ts:204-530 | appending a fresh event keeps the log sorted by instant and identifier |
| PilotReachability.StepKeepsShape | src/modules/db/repositories/in-memory-candidate-pilot-repository.ts:204-530 | every step of the life keeps rows and log in agreement, evidence being taken in its place |
| PilotReachability.ReachableIffShaped | src/modules/db/repositories/in-memory-candidate-pilot-repository.ts:204-530 | what runs that take evidence in its place produce is exactly the described rows and logs |
| RepositoryRuns.AdvanceInPlace | src/modules/db/repositories/in-memory-candidate-pilot-repository.ts:462-530 | in a well-shaped state the machine takes evidence exactly when the repository stores it and it is in its place: phase, activation, order, and while DRAINING a sell later than the start |
| RepositoryRuns.RunKeepsOrRuins | src/modules/db/repositories/in-memory-candidate-pilot-repository.ts:204-530 | a run of the repository stays well shaped as long as every record is in its place; from the first one that is not, no continuation of the log is |
| RepositoryRuns.StoredRunAcceptedIff | src/modules/db/repositories/in-memory-candidate-pilot-repository.ts:204-530 | the start-up validator accepts what a run of the repository stored if and only if every record was in its place, the rows are readable, of the configured identity and not later than now, and a created deployment is pending and of this instant |
| RepositoryRuns.CommittedRunAcceptedIff | src/modules/db/repositories/sqlite-candidate-pilot-repository.ts:504-627 | what the SQLite repository committed can be read back, so acceptance depends on the places of the records, the identity and the clock alone |
| RepositoryExample.LateFillStoredAndRefused | src/modules/db/repositories/sqlite-candidate-pilot-repository.ts:504-627 | a concrete run: a sell executed before the rollback start and projected after it is committed, and the deployment is never accepted again |
| RoutableStates.ReplayIsReplayed | src/inspection/position-guard-pilot-readiness.ts:2171-2247 | what every replay of valid evidence keeps: paired fields, a positive cost of an open position, and a version that counts at least the fills behind the state |
| RoutableStates.FillFields | src/inspection/position-guard-pilot-readiness.ts:2196-2247 | what a fill leaves besides amounts: the count of additions, the last entry path, the last full exit, and the last instant and identifier |
| RoutableStates.RoutableIff | src/modules/db/pilot-interfaces.ts:40-72 | a replayed state has a routing state if and only if its profits can be read back and its quantity is zero or above the tolerance |
| StartupValidator.SnapshotEvidenceRecords | src/app/position-guard-pilot-initializer.ts:381-440 | the scan accepts exactly valid records in strictly increasing order with distinct identifiers |
| StartupValidator.SnapshotAuditEvents | src/app/position-guard-pilot-initializer.ts:442-508 | the scan accepts exactly canonical events in strictly increasing order with distinct identifiers |
| StartupValidator.StateMatchesEvidence | src/app/position-guard-pilot-initializer.ts:879-887 | the persisted state is the replay of the evidence |
| StartupValidator.ValidateAuthority | src/app/position-guard-pilot-initializer.ts:234-302 | the validator as a procedure decides the predicate that the theorems are about |
| StartupMain.AcceptsIffLeftByRun | src/app/position-guard-pilot-initializer.ts:234-877 | the start-up validator accepts the rows if and only if some run left them, the profits of the state can be read back, its quantity is zero or above the tolerance, the identity is the configured one, a created deployment is of this start, and nothing lies in the future |
| StartupMain.AcceptsIffAdmissible | src/app/position-guard-pilot-initializer.ts:234-302 | a restart accepts what a run left of the configured identity, readable, and without anything later; the start that creates the deployment moreover asks for a pending deployment created and updated at its own instant |
| AcceptedLogs.MaterialAcceptedIff | src/app/position-guard-pilot-initializer.ts:381-440 | evidence is valid exactly with canonical texts, an identifier that is not blank, an instant from 1970 on, and money for a fill; without a fill it is canceled and costs nothing |
| AcceptedLogs.RecordValidIff | src/app/position-guard-pilot-initializer.ts:405-408 | a record is valid exactly if its evidence is, and it carries the hash of that evidence under this deployment in the exact version |
| AcceptedLogs.EpochTextIs | src/app/position-guard-pilot-initializer.ts:442-508 | instants within identifiers are decimal digits that read back as the instant, with a minus sign before 1970 |
| AcceptedLogs.FaultPayloadIff | src/app/position-guard-pilot-initializer.ts:674-692 | a fault gives one of nine reasons and a JSON object as its provenance, in canonical form |
| AcceptedLogs.AcceptedEventIs | src/app/position-guard-pilot-initializer.ts:442-912 | every event of an accepted log has exactly the identifier, the phases, the state version, the instant and the payload that its place in the life gives it, field by field |
| AcceptedLogs.AcceptedLogHas | src/app/position-guard-pilot-initializer.ts:510-877 | and every event that must be there is: the creation, the activation, one event for each record, the rollback and the ending that the phase tells of |
| StartupTheorem.RetainedOfShaped | src/app/position-guard-pilot-initializer.ts:510-636 | what a run leaves passes the checks of a retained life |
| StartupTheorem.ShapedOfRetained | src/app/position-guard-pilot-initializer.ts:510-780 | what passes the checks of a retained life was left by a run |
| StartupMain.DisabledOfShaped | src/app/position-guard-pilot-initializer.ts:782-877 | what a completed run leaves passes the checks of a disabled life |
| StartupMain.ShapedOfDisabled | src/app/position-guard-pilot-initializer.ts:782-877 | what passes the checks of a disabled life was left by a completed run |
| StartupMain.DrainingSafety | src/app/position-guard-pilot-initializer.ts:543-583 | in every accepted log all evidence is filled; what stands after the rollback start is strictly later, is a sell, and strictly reduces an inventory that is not yet flat |
| ReadinessInspector.ValidateAuditRows | src/inspection/position-guard-pilot-readiness.ts:1361-1418 | the inspector's scan of the audit rows decides its predicate |
| InspectorStrictness.PrefixCountIsCut | src/inspection/position-guard-pilot-readiness.ts:1577-1609 | the inspector's count of preceding state events is the validator's |
| InspectorStrictness.InspectedIsRunIff | src/inspection/position-guard-pilot-readiness.ts:1420-1700 | what the inspector accepts was left by a run exactly when the activation is not after the last update, a fault after a rollback is strictly later, and the fault identifier is not blank |
| InspectorStrictness.InspectedIsAcceptedIff | src/inspection/position-guard-pilot-readiness.ts:1361-1700 | what the inspector accepts is accepted at start-up if and only if those three conditions hold, the identity is the configured one, a created deployment is of this start, and the quantity is zero or above the tolerance |
| InspectorCompleteness.AcceptedIsInspectedIff | src/inspection/position-guard-pilot-readiness.ts:1361-1700 | the other way round: what start-up accepts, the inspector passes if and only if the activation is strictly later than the creation, every record strictly later than the activation, and a fault the last event of the log |
| InspectorExamples.BlankFaultInspectedOnly | src/inspection/position-guard-pilot-readiness.ts:1611-1657 | a concrete life with a blank fault identifier that the inspector accepts and the start-up validator never does |
| InspectorExamples.LateActivationInspectedOnly | src/inspection/position-guard-pilot-readiness.ts:1509-1532 | the same for a deployment completed before the activation that its log states |
| InspectorExamples.FaultAtStartInspectedOnly | src/inspection/position-guard-pilot-readiness.ts:1611-1657 | the same for a fault at the instant of the rollback start |
| InspectorExamples.DustInspectedOnly | src/inspection/position-guard-pilot-readiness.ts:824-895 | the same for a position within the tolerance, although a run of the life left it |
| ForwardRollout.WriteSeesWhatWasRead | src/app/position-guard-pilot-recovery.ts:369-416 | a compare-and-set that succeeds finds the deployment and the exact state that the call had read, while execution is paused |
| ForwardRollout.ForwardOnly | src/app/position-guard-pilot-recovery.ts:266-455 | over all interleavings every move is an allowed one, moves follow one another from PENDING_FLAT, and nothing leaves DISABLED or PAUSED_FAULT |
| ForwardRollout.AtMostThreeMoves | src/app/position-guard-pilot-recovery.ts:266-455 | however many calls are under way, at most three moves are persisted |
| ForwardRollout.RollbackOnlyWhilePaused | src/app/position-guard-pilot-recovery.ts:427-455 | rollbacks and faults are persisted only while execution is paused or kill-switched; DISABLED only from a flat state |
| ForwardRollout.CompletionNeedsDraining | src/app/position-guard-pilot-recovery.ts:362-367 | completeRollback writes only DRAINING and flat to DISABLED; requestRollback disables what is flat and drains what is not |
| ForwardRollout.WriteIs | src/app/position-guard-pilot-recovery.ts:266-455 | what each call writes, in every case: it activates what is pending and flat, disables what is flat, drains what is not, completes what drains and is flat, and it does so whenever nothing has changed since it read |
| ForwardRollout.FaultIs | src/app/position-guard-pilot-recovery.ts:427-455 | a fault pauses execution and ends an open deployment with PAUSED_FAULT; what is disabled or has ended stays as it is |
| ForwardRollout.PauseIs | src/app/position-guard-pilot-recovery.ts:369-416 | a call that must see execution paused pauses it, reads the deployment only then, and goes on only while execution is still paused |
| OrderAbsence.IsDefinitivelyAbsentOrder | src/app/position-guard-pilot-recovery.ts:2229-2355 | the procedure with its scans decides the absence predicate |
| OrderAbsence.ObservationsInPlace | src/app/position-guard-pilot-recovery.ts:2310-2328 | the scan accepts exactly observations in place with distinct identifiers |
| OrderAbsence.BoundedAbsenceIff | src/domain/submission-blocking-order.ts:84-91 | the classifier's sort finds a bounded absence exactly when two absences lie at different instants |
| OrderAbsence.AbsentAgreesIff | src/domain/submission-blocking-order.ts:68-156 | an order found absent by the recovery is not blocking exactly when there is no submission event, no UUID, and a rejection came from the exchange without a recovery request |
| OrderAbsence.LocalRejectionStillBlocks | src/domain/submission-blocking-order.ts:68-156 | a concrete dry-run order with a local rejection that is definitively absent and still blocking |
| OrderAbsence.DispatchNeverUnblocks | src/domain/submission-blocking-order.ts:118-156 | a further FOUND observation or submission event never unblocks an order, and a FOUND observation excludes the absence verdict |
| OrderVerdicts.BlockingIff | src/domain/submission-blocking-order.ts:5-156 | an order blocks in each of the seven statuses of a live submission, in no other but FAILED and REJECTED, and in those exactly if it may have been dispatched and neither its absence nor its rejection is confirmed, with the event types and failure codes written out |
| OrderVerdicts.ReasonIs | src/domain/submission-blocking-order.ts:68-156 | the reason of the verdict, in every case |
| OrderVerdicts.RejectedAbsentIff | src/app/position-guard-pilot-recovery.ts:2229-2271 | a rejected order is absent exactly on one uncontradicted rejection of the exchange, or of a dry run, that is its own last update and states its response |
| OrderVerdicts.UpperIs | src/app/position-guard-pilot-recovery.ts:2365-2365 | capitals for the 26 small letters, and nothing else changes |
| OrderVerdicts.TrimIs | src/app/position-guard-pilot-recovery.ts:2410-2410 | blanks are taken from both ends of an error name and from nowhere else |
| OrderVerdicts.FailedAbsentIff | src/app/position-guard-pilot-recovery.ts:2229-2355 | a failed order is absent exactly on one uncontradicted confirmation that states the configured bounds and what the observations show: none a find, enough misses over enough time, the last at the confirmation, each made with every query there is |
| OrderVerdicts.OnlyFailedOrRejected | src/app/position-guard-pilot-recovery.ts:2229-2240 | no other order is ever absent |
| OrderAbsence.ClassifyOrderFree | src/domain/submission-blocking-order.ts:68-156 | the classification ignores the order of events and observations |
| OrderAbsence.AbsentOrderFree | src/app/position-guard-pilot-recovery.ts:2229-2355 | the absence verdict ignores the order of events and observations |
| HistoryWindows.WindowsTile | src/app/position-guard-pilot-recovery.ts:2557-2560 | the windows of successive rounds join without gap or overlap from the first end to the stop boundary, in the distance divided by the lookback, rounded up, rounds |
| HistoryWindows.EveryInstantOnce | src/app/position-guard-pilot-recovery.ts:2557-2560 | an instant lies in exactly one window if it is between the boundary and the first end, and otherwise in none |
| HistoryWindows.SummaryFollowsWindows | src/app/position-guard-pilot-recovery.ts:2580-2590 | a valid market's next window continues its archive; the archive is complete exactly in the last round |
| HistoryWindows.MarketValidIff | src/app/position-guard-pilot-recovery.ts:2520-2600 | a market of a summary is valid exactly when its windows, retention, confidence and reason are those that follow from the end of its archive window and from what was truncated |
| HistoryWindows.RecentJoinsArchive | src/app/position-guard-pilot-recovery.ts:2557-2590 | the recent window and the archive's windows hold every instant from the stop boundary to the start of the run exactly once |
| HistoryWindows.IsValidHistoryRecoverySummary | src/app/position-guard-pilot-recovery.ts:2414-2634 | the validator with its scan of the markets decides the summary predicate |
| HistoryWindows.ScanMarkets | src/app/position-guard-pilot-recovery.ts:2488-2608 | the scan accepts exactly valid markets without repetition and adds up their snapshots |
| HistoryWindows.MarketHighIff | src/app/position-guard-pilot-recovery.ts:2560-2579 | a market is of high confidence exactly when its reason is a complete archive |
| HistoryWindows.AccountHighIff | src/app/position-guard-pilot-recovery.ts:2610-2634 | the account is of high confidence exactly when its reason is a complete archive; then the stop boundary lies strictly within the retention and no market was truncated |
| HistoryWindows.SummaryValidIff | src/app/position-guard-pilot-recovery.ts:2414-2634 | a summary is valid if and only if it is of a run that did not fail, with its bounds counted back from the start in days, and of two different valid markets whose coverage, retention, confidence, reason and counts it adds up |
| HistoryWindows.CompleteSummaryIsValid | src/app/position-guard-pilot-recovery.ts:2414-2634 | a concrete summary of a complete recovery is valid |
| HistoryWindows.BothMarkets | src/app/position-guard-pilot-recovery.ts:2610-2610 | a valid summary has both markets, each once |
| JsonText.UnquoteOfEscaped | src/app/candidate-btc-run-preparation.ts:541-541 | reading a quoted string gives the string back (section 7 of RFC 8259), lone surrogates included |
| JsonNumber.NumberInjective | src/app/candidate-btc-run-preparation.ts:541-541 | the text of a finite number, in whichever of its four forms, ends where its characters end, and determines the number |
| JsonText.TextDeterminesTree | src/app/position-guard-pilot-recovery.ts:2807-2809 | the printed text determines the tree |
| SnapshotText.CanonicalTextIsRecoveryText | src/app/candidate-btc-run-preparation.ts:539-548 | printing while sorting gives the same text as printing the sorted tree, with the signs of zeros lost |
| SnapshotText.SummaryTextIff | src/app/candidate-btc-run-preparation.ts:249-251 | the summary texts are equal if and only if the summaries are equal as values, up to the signs of zeros |
| SnapshotText.NegativeZeroPrintsAsZero | src/app/candidate-btc-run-preparation.ts:541-541 | a negative zero and a zero are two values of one text |
| CanonicalJson.KeyOrderDoesNotShow | src/app/candidate-btc-run-preparation.ts:547-547 | the order of keys does not show in the text |
| CanonicalJson.UnmimicCanonical | src/app/position-guard-pilot-recovery.ts:2811-2823 | a record that looks like a tag has the canonical form of the number it names |
| CanonicalJson.UnmimicIsIdentityIff | src/app/position-guard-pilot-recovery.ts:2811-2823 | replacing such records changes a tree exactly when it has one |
| CanonicalJson.RecoveryTextIff | src/app/position-guard-pilot-recovery.ts:2807-2823 | two readings have equal texts if and only if they are equal as values once tag look-alikes are read as the numbers they name |
| CanonicalJson.StableRereadIff | src/app/position-guard-pilot-recovery.ts:1569-1601 | without tag look-alikes the stable reread compares the two readings as values |
| CanonicalJson.TextTellsValueIff | src/app/position-guard-pilot-recovery.ts:2807-2823 | a text tells its value among the trees without look-alikes exactly when its own tree has none |
| JsonForms.WhichForm | src/app/candidate-btc-run-preparation.ts:541-541 | an exponent is written below 10^-6 and from 10^21 on, leading zeros down to 10^-6, and otherwise the point stands after as many digits as the number has before it |
| JsonForms.TextsWithoutExponent | src/app/candidate-btc-run-preparation.ts:541-541 | concrete numbers: 0, -1, 1.5, -0.000001 |
| JsonForms.TextsWithExponent | src/app/candidate-btc-run-preparation.ts:541-541 | concrete numbers: 10^20 in full, 1e+21, 1e-7, 1.2e-7 |
| JsonForms.EscapeIs | src/app/candidate-btc-run-preparation.ts:541-541 | two characters for what has a short escape, six for other controls and lone surrogates, itself for all else (section 7 of RFC 8259) |
| JsonForms.PairsStay | src/app/candidate-btc-run-preparation.ts:541-541 | a pair of surrogates stays as it is, and whatever else stands there is escaped one by one |
| JsonForms.SmallTexts | src/app/candidate-btc-run-preparation.ts:541-541 | concrete texts: empty ones, an array and a record with the three constants |
| JsonForms.HexEscapeIs | src/app/candidate-btc-run-preparation.ts:541-541 | the six characters of an escape are a reverse solidus, u and four lower-case hexadecimal digits of the code unit |
| JsonForms.KeysAscend | src/app/position-guard-pilot-recovery.ts:2811-2823 | the keys of a printed record ascend by code units |
| JsonForms.TagsAre | src/app/position-guard-pilot-recovery.ts:2811-2823 | the tags of large integers and of the numbers that JSON does not have |
| OwnershipStore.AcquireGrows | src/modules/db/repositories/in-memory-runtime-ownership-store.ts:49-89 | an acquisition takes the generation after the newest one seen |
| OwnershipStore.AcquireIff | src/modules/db/repositories/in-memory-runtime-ownership-store.ts:49-89 | an acquisition is granted over any row unless time has gone back, the lease is empty or the generations are used up; what it writes |
| OwnershipStore.RenewKeeps | src/modules/db/repositories/in-memory-runtime-ownership-store.ts:91-119 | a renewal keeps the generation and the newest one |
| OwnershipStore.RenewIff | src/modules/db/repositories/in-memory-runtime-ownership-store.ts:91-119 | a renewal is written exactly for the owner of the row, strictly later than the last, before the expiry and to a later one; a past instant is refused, anything else answered with nothing |
| OwnershipStore.ReleaseKeeps | src/modules/db/repositories/in-memory-runtime-ownership-store.ts:121-144 | a release empties the row and forgets no generation |
| OwnershipStore.ReleaseIff | src/modules/db/repositories/in-memory-runtime-ownership-store.ts:121-144 | a release is granted exactly to the owner of the row before its expiry |
| OwnershipStore.RecordLostKeeps | src/modules/db/repositories/in-memory-runtime-ownership-store.ts:146-166 | a recorded loss leaves the row and the newest generation |
| OwnershipStore.RecordLostIff | src/modules/db/repositories/in-memory-runtime-ownership-store.ts:146-166 | a loss is recorded exactly for the owner of the row, expired or not |
| OwnershipStore.JournalStaysOrdered | src/modules/db/repositories/in-memory-runtime-ownership-store.ts:49-166 | instants and generations never go back along the journal |
| OwnershipGuard.LoseFollows | src/app/runtime-ownership-guard.ts:216-232 | a loss is final and the first one counts; exactly an orderly shutdown's reason is replaced by a real one |
| OwnershipGuard.AcquireFollows | src/app/runtime-ownership-guard.ts:86-115 | acquisition begins once under a held lock, and ends owned if and only if the lock is still held and nothing was lost meanwhile |
| OwnershipGuard.CheckFollows | src/app/runtime-ownership-guard.ts:130-148 | the local check passes if and only if the guard is owned, the lock held, and the instant valid and before the expiry; which loss it records otherwise |
| OwnershipGuard.UseFollows | src/app/runtime-ownership-guard.ts:150-168 | a check against the store, and a renewal, pass exactly a row of the same lease, which the guard then remembers; otherwise it is lost |
| OwnershipGuard.SendIsAuthorised | src/app/runtime-ownership-guard.ts:170-214 | a callback runs if and only if the guard is owned under a held lock, its lease unexpired at both readings of the clock, its own lease the persisted row and unexpired at the instant of the order, and the account running without a kill switch in the expected mode and behind the expected gate |
| OwnershipGuard.SameOwnershipIff | src/app/runtime-ownership-guard.ts:273-284 | a row is that of the lease exactly when token, generation, mode and acquisition agree; heartbeat and expiry may have moved |
| RuntimeGuard.RuntimeOwnershipGuard.constructor | src/app/runtime-ownership-guard.ts:81-84 | a guard over a lock that is already lost is lost |
| RuntimeGuard.RuntimeOwnershipGuard.MarkLost | src/app/runtime-ownership-guard.ts:216-232 | the state is lost before any listener runs, whichever listener throws, and the listeners before it have been called once, in order |
| RuntimeGuard.RuntimeOwnershipGuard.BeginAcquire | src/app/runtime-ownership-guard.ts:86-97 | acquisition up to its await: once only |
| RuntimeGuard.RuntimeOwnershipGuard.FinishAcquire | src/app/runtime-ownership-guard.ts:105-114 | acquisition after its await |
| RuntimeGuard.RuntimeOwnershipGuard.AssertLocallyHeld | src/app/runtime-ownership-guard.ts:130-148 | the local check with its losses and errors |
| RuntimeGuard.RuntimeOwnershipGuard.BeginAssertCurrent | src/app/runtime-ownership-guard.ts:150-153 | the current check up to its await |
| RuntimeGuard.RuntimeOwnershipGuard.FinishAssertCurrent | src/app/runtime-ownership-guard.ts:155-168 | the current check after its await |
| RuntimeGuard.RuntimeOwnershipGuard.RunWithCurrentExecutionAuthority | src/app/runtime-ownership-guard.ts:170-214 | the send path in one step, with all its errors |
| RuntimeGuard.RuntimeOwnershipGuard.AcceptRenewal | src/app/runtime-ownership-guard.ts:239-247 | a renewal of another lease loses the guard |
| OwnershipGuard.KillSwitchBlocks | src/app/runtime-ownership-guard.ts:290-303 | no order is sent in an account with its kill switch on, or not running |
| OwnershipGuard.ReasonCodeIff | src/app/runtime-ownership-guard.ts:217-217 | a reason code is an upper-case letter followed by at most 63 upper-case letters, digits and underscores |
| ProcessLock.ListenerRuntimeProcessLock.MarkLost | src/app/runtime-process-lock.ts:144-148 | every listener is told, once in the lock's life |
| ProcessLock.ListenerRuntimeProcessLock.CloseEvent | src/app/runtime-process-lock.ts:90-93 | a closed listener is a loss unless a release asked for it |
| ProcessLock.ListenerRuntimeProcessLock.ErrorEvent | src/app/runtime-process-lock.ts:95-97 | an error of the listener is a loss |
| ProcessLock.ListenerRuntimeProcessLock.Release | src/app/runtime-process-lock.ts:114-142 | a release is asked for once |
| ProcessLock.ListenerRuntimeProcessLock.CloseAnswered | src/app/runtime-process-lock.ts:126-135 | an orderly release tells no listener; a failed one keeps the lock |
| ProcessLock.LockOnlyGoes | src/app/runtime-process-lock.ts:81-154 | a lock that is no longer held never is again |
| ProcessLock.LossIff | src/app/runtime-process-lock.ts:81-154 | the lock is lost exactly by a close that nobody asked for, by an error, or by a release that succeeds, while its events still arrive |
| RuntimeProtocol.PassesHoldsPipe | src/app/runtime-ownership-guard.ts:130-148 | in every reachable world whoever passes the local check holds the pipe and has not asked to free it |
| RuntimeProtocol.SingleOwner | src/app/runtime-ownership-guard.ts:130-148 | in every reachable world no two guards pass the local check |
| RuntimeProtocol.SendKeeps | src/app/runtime-ownership-guard.ts:170-214 | an order is sent under the newest generation of all, by the holder of the pipe |
| RuntimeProtocol.Fencing | src/app/runtime-ownership-guard.ts:170-214 | along every run generations of executed sends never go back, and a newly persisted one exceeds everything before it |
| RuntimeProtocol.FencedBeforeFreed | src/app/runtime-ownership-context.ts:194-244 | the lock is asked to be freed only by a runtime that is lost, or that never had a guard |
| RuntimeProtocol.LostForever | src/app/runtime-ownership-guard.ts:216-232 | from a loss on, whatever happens, the runtime stays lost and sends nothing |
| RuntimeHandover.NewcomerSends | src/app/runtime-ownership-guard.ts:86-214 | in any world whoever finds the pipe free, with time and generations left, acquires the generation after the newest one and sends an order under it |
| RuntimeHandover.OwnerCleansUp | src/app/runtime-ownership-context.ts:194-244 | what each of the three cleanup paths leaves of an owner, with quiesced work or without: its loss reason, and the lock kept exactly by an orderly shutdown whose work has not stopped |
| RuntimeHandover.UnsafeScopeCleansUp | src/app/scoped-runtime-ownership.ts:173-219 | a runtime whose scoped work is known not to have stopped keeps its lock through the scoped cleanup, and its loss reason through every cleanup |
| RuntimeHandover.CloseIsHeardIff | src/app/runtime-process-lock.ts:81-154 | the guard is lost by a listener that closes unasked while the lock is held, and by no orderly close |
| RuntimeHandover.HandedOver | src/app/runtime-ownership-guard.ts:86-214 | one runtime sends, shuts down in order, and the next one sends under the next generation |
| RuntimeShutdown.StopOwnedAppRuntime | src/app/runtime-lifecycle.ts:250-375 | the whole new state: fenced first; the row tried, the databases closed and the lock freed, in that order, if and only if all workers stopped safely, and the row only by an owner whose loss is recorded; unsafe workers leave a loss that is not an orderly one; every step is reported once with its outcome |
| RuntimeShutdown.ShutdownAfterStartupFailure | src/app/runtime-ownership-context.ts:213-244 | the whole new state: fenced first, the row given up, the database closed, and the lock asked to be freed last, whether or not work has stopped |
| RuntimeShutdown.ReleaseScopedRuntimeOwnership | src/app/scoped-runtime-ownership.ts:173-219 | the whole new state: fenced first, the row given up; the database is closed and the lock freed unless the loss reason is the failed quiescence of scoped work; and when it reports success |
| RuntimeShutdown.RuntimeOwnershipContext.ReleaseCurrentOwnership | src/app/runtime-ownership-context.ts:158-176 | whether or not the guard is lost, the row is given up unless the guard never acquired or was lost for a recorded reason; a store that declines is a loss; asked again, it gives the first answer |
| RuntimeShutdown.UnsafeLoss | src/app/runtime-lifecycle.ts:316-326 | the fence after failed quiescence replaces the orderly reason |
| RuntimeShutdown.GivesUpRowIff | src/app/runtime-ownership-context.ts:158-176 | the row is given up by every guard that has a record, except after one of eight losses |
| Heartbeat.AlwaysOneWakeUp | src/app/runtime-heartbeat.ts:59-160 | in every run a running heartbeat has exactly one of a pending timer and an attempt in flight; one that is not running has no timer |
| Heartbeat.WakeUpByExpiry | src/app/runtime-heartbeat.ts:93-160 | every pending wake-up is due by the expiry of the present lease, and every attempt began before the expiry of the lease that it extends |
| Heartbeat.NeverFarAhead | src/app/runtime-heartbeat.ts:93-160 | in every run a pending wake-up is never more than 10 s ahead of the clock |
| Heartbeat.AfterAnswer | src/app/runtime-heartbeat.ts:131-160 | after an answer the runtime stays the owner if and only if it got a row of its own lease before the lease ended; the wake-up then comes 10 s later, strictly before the new expiry; otherwise which loss |
| Heartbeat.AfterFailure | src/app/runtime-heartbeat.ts:131-160 | after a failure it stays the owner if and only if the failure is transient and the lease not over; the wake-up then comes after the smaller of 10 s and the rest of the lease |
| Heartbeat.AttemptBeginsIff | src/app/runtime-heartbeat.ts:93-129 | an attempt begins if and only if the lock is held at a valid instant before the end of the lease; otherwise which loss |
| Heartbeat.StoppedForGood | src/app/runtime-heartbeat.ts:77-86 | after a stop has settled neither exists, ever |
| Heartbeat.StartDeadlineIff | src/app/runtime-heartbeat.ts:59-75 | the first wake-up is in time exactly when the start is within 35 s of the acquisition |
| HeartbeatObject.RuntimeHeartbeat.Start | src/app/runtime-heartbeat.ts:59-75 | start, and its refusals |
| HeartbeatObject.RuntimeHeartbeat.RunScheduledAttempt | src/app/runtime-heartbeat.ts:93-129 | an attempt up to its await |
| HeartbeatObject.RuntimeHeartbeat.FinishAttempt | src/app/runtime-heartbeat.ts:131-160 | an attempt after its await: renewed, mismatched, expired, failed, or retried |
| HeartbeatObject.RuntimeHeartbeat.MarkLost | src/app/runtime-heartbeat.ts:162-178 | a loss clears the timer while the heartbeat is subscribed |
| HeartbeatObject.RuntimeHeartbeat.Stop | src/app/runtime-heartbeat.ts:77-86 | stop clears the timer and forbids a restart |
| Scheduler.BatchKeyGroups | src/app/strategy-scheduler.ts:1214-1223 | the key of a batch is the full second of 1000 ms in which the instant lies, and later instants never have an earlier one |
| Scheduler.FirstInFirstOut | src/app/strategy-scheduler.ts:647-668 | queued ticks are done once each, in order, even after failures |
| Scheduler.TurnIs | src/app/strategy-scheduler.ts:647-660 | the next tick is admitted if and only if the scheduler is enabled and started and has not remembered its batch; it is skipped in that batch and dropped otherwise |
| Scheduler.LiveIff | src/app/strategy-scheduler.ts:662-665 | an admitted tick counts as live, and its batch is remembered, if and only if its run completed with an accepted order of a live adapter |
| Scheduler.RunBeginsIff | src/app/strategy-scheduler.ts:209-281 | a run asked for by hand begins if and only if the market is configured and not marked running, before any stop |
| Scheduler.NothingAdmittedAfterStop | src/app/strategy-scheduler.ts:168-183 | from a stop on, whatever happens, no run begins and every tick taken is dropped; at most the tick that was current at the stop is still done as an admitted one |
| SchedulerBatches.RememberedIsEnough | src/app/strategy-scheduler.ts:653-659 | as long as the ticks of each batch stand together, the one remembered key answers for the next tick like the set of all submitted batches |
| SchedulerBatches.OneLiveOrderPerBatchIff | src/app/strategy-scheduler.ts:647-668 | every run that queues exactly the given ticks submits at most one live order per batch, if and only if no two ticks of one batch have a tick of another between them |
| SchedulerBatches.OneLiveOrderPerBatch | src/app/strategy-scheduler.ts:647-668 | in particular for ticks queued with ascending batches |
| SchedulerBatches.SplitBatchSubmitsTwice | src/app/strategy-scheduler.ts:653-665 | for every queue that splits a batch, a run that submits two live orders in it |
| SchedulerMarkets.RunsAreCounted | src/app/strategy-scheduler.ts:748-777 | in every interleaving a market's counters are the numbers of its results of each kind, and its runs are successes plus failures |
| SchedulerMarkets.ExposedIff | src/app/strategy-scheduler.ts:232-281 | along a run a market is at some time under way without being marked running exactly when some step cleared its mark during a run: a deferred tick of it, or a start that its preflight blocked; otherwise it runs at most once at a time |
| SchedulerMarkets.SecondRunBeginsIff | src/app/strategy-scheduler.ts:232-281 | beside a run that is under way another run of the market can begin exactly when the market is configured and not marked running, and no stop has begun |
| SchedulerMarkets.TwoRunsAtOnce | src/app/strategy-scheduler.ts:647-690 | a concrete run after which two runs of one market are under way |
| SchedulerObject.StrategyScheduler.constructor | src/app/strategy-scheduler.ts:106-115 | every configured market starts idle |
| SchedulerObject.StrategyScheduler.ApplyRunResult | src/app/strategy-scheduler.ts:748-777 | the counters after a result |
| SchedulerObject.StrategyScheduler.RunMarketNow | src/app/strategy-scheduler.ts:209-281 | a stop that has begun refuses the run, an unknown market throws, and a market that is running only counts a skip |
| SchedulerObject.StrategyScheduler.EnqueueScheduledMarketRun | src/app/strategy-scheduler.ts:647-668 | a tick joins the end of the queue |
| SchedulerObject.StrategyScheduler.TakeNext | src/app/strategy-scheduler.ts:647-660 | what becomes of the next tick: dropped, deferred or admitted |
| SchedulerObject.StrategyScheduler.FinishTick | src/app/strategy-scheduler.ts:662-665 | a live order of the admitted tick is remembered by its batch |

## Left out

- Timestamps: an instant with its text; parsing and the strict timestamp grammar are not modelled, and the archive windows are in whole milliseconds.
- Identifiers are compared character by character; for identifiers outside the basic plane the source compares UTF-16 code units, and two sorts of the source use the locale's collation.
- Blank text: space, tab, line feed and carriage return are the white space of the model; changing case concerns the 26 letters.
- Hashes are injective by construction; the material that is hashed is kept instead of a digest.
- The routing state in floating point: its checks are modelled on exact amounts, and that an amount exceeds the finite numbers is not.
- Evidence that is already stored changes nothing and is not a step; a conflicting repetition throws.
- How a finite binary number finds its shortest decimal: numbers are given by that decimal, of which distinct numbers have distinct ones. Undefined members and the array-index order of integer-like keys are not modelled.
- Property descriptors, prototypes, symbol keys and frozen objects.
- The limit of safe integers, except in the ownership store and the archive summary.
- The ownership store's transactions are atomic steps; the database, its file identity and its busy errors are not modelled (a failed renewal has written nothing).
- The loss of the process lock reaches the guard in the step in which the listener reports it; that the pipe name is exclusive is a rule of the world.
- Listeners that call the guard again while they are being notified.
- The heartbeat's callback on loss, and the promise that a stop waits for besides the attempt; a heartbeat starts within 35 s of the acquisition in the runs considered.
- The shutdown of the application: a time limit is an outcome of waiting; the summary keeps the status of each step without its message.
- The scheduler's timers, reports and persisted run records, the preparation before a run, and the run on start (a start itself is a step, with its preflight blocking or not); a run that loses ownership after it has sent an order reports no result, so such an order is not counted as live.
- The rollout driver's readback is the deployment's row, the version and flatness of the exact state, and the operator state; its further checks appear as faults that may happen at any moment. Notifications are left out.
- Evidence fill aggregation and the provenance of readings, snapshots and reconciliation runs.
- SqliteRuntimeOwnershipStore and, but for the transaction of evidence, the SQLite repositories: the in-memory ones state the same rules.
- Environment and command line, banners, Telegram, exchange clients, research programs, preflight lists.
