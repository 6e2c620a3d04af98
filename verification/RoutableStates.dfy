/**
 Which replayed states the start-up validator can turn into a routing state. A replay alone gives
 almost everything that is asked; what remains is that the profits can be read back, and that no
 quantity is left that is open and yet within the tolerance.
 */
module RoutableStates {
  import opened Basics
  import opened ExactDecimals
  import opened DecimalText
  import opened KeyOrder
  import opened CandidateReplay
  import opened LedgerLaws
  import opened LedgerAcceptance
  import opened PilotAudit
  import opened StartupValidator

  /** Every profit is zero or at least one in magnitude, and the quantity is zero or more than one part in 10^12. */
  ghost predicate Readable(s: ExactState) {
    && (Amount(s.realizedPnl) == 0.0 || Abs(Amount(s.realizedPnl)) >= 1.0)
    && (s.lastFullExitPnl.Some? ==> Amount(s.lastFullExitPnl.value) == 0.0 || Abs(Amount(s.lastFullExitPnl.value)) >= 1.0)
    && (Amount(s.inventory) == 0.0 || Amount(s.inventory) > 0.000000000001)
  }

  /** The same of the texts. */
  predicate ReadableTexts(s: ExactState) {
    IsCanonicalSigned(s.realizedPnl) && (s.lastFullExitPnl.Some? ==> IsCanonicalSigned(s.lastFullExitPnl.value)) &&
    (s.inventory == "0" || IsOpenQuantity(s.inventory))
  }

  /** The fewest fills behind a state, for any open quantity. */
  function FewestFills(s: ExactState): nat {
    (if s.lastFullExitAt.None? then 0 else 2)
    + (if s.inventory != "0" then 1 + s.addCount + (if s.realizedPnl != "0" then 1 else 0) else 0)
  }

  /** What every replay of valid evidence keeps. */
  ghost predicate Replayed(s: ExactState) {
    && (s.lastFullExitAt.Some? <==> s.lastFullExitPnl.Some?)
    && (s.lastFullExitPnl.Some? ==> IsPrinted(s.lastFullExitPnl.value))
    && (s.lastFullExitAt.Some? ==> s.lastEntryPath.Some?)
    && (if s.lastEvidenceAt.None? then s == EMPTY_STATE
        else
          && s.lastEvidenceId.Some? && NonBlank(s.lastEvidenceId.value) && s.stateVersion > 0
          && (s.lastFullExitAt.Some? ==> s.lastFullExitAt.value.epochNs <= s.lastEvidenceAt.value.epochNs)
          && (s.inventory == "0" ==> s.lastFullExitAt.Some?))
    && (s.inventory != "0" ==> s.lastEvidenceAt.Some? && s.lastEntryPath.Some? && Amount(s.costBasis) > 0.0)
    && s.stateVersion >= FewestFills(s)
  }

  predicate SameExit(s: ExactState, next: ExactState) {
    next.lastFullExitAt == s.lastFullExitAt && next.lastFullExitPnl == s.lastFullExitPnl
  }

  /** The parts of a fill's step that do not calculate. */
  lemma FillFields(s: ExactState, e: Evidence, next: ExactState)
    requires IsFill(e) && Advance(s, e) == Some(next)
    ensures next.lastEvidenceAt == Some(e.executedAt) && next.lastEvidenceId == Some(e.evidenceId) && next.stateVersion == s.stateVersion + 1
    ensures s.lastEvidenceAt.Some? ==> s.lastEvidenceAt.value.epochNs <= e.executedAt.epochNs
    ensures next.inventory == e.remainingQuantity
    ensures IsBuy(e.action) ==> SameExit(s, next) && next.realizedPnl == s.realizedPnl
    ensures IsBuy(e.action) && s.inventory == "0" ==> next.lastEntryPath == Some(e.entryPath) && next.addCount == s.addCount
    ensures IsBuy(e.action) && s.inventory != "0" ==> next.lastEntryPath == s.lastEntryPath && next.addCount == s.addCount + 1
    ensures !IsBuy(e.action) ==> s.inventory != "0" && next.lastEntryPath == s.lastEntryPath
    ensures !IsBuy(e.action) && next.inventory == "0" ==> next.lastFullExitAt == Some(e.executedAt) && next.lastFullExitPnl.Some?
    ensures !IsBuy(e.action) && next.inventory != "0" ==> SameExit(s, next) && next.addCount == s.addCount
  {
    hide IsCanonicalNonNegative, IsCanonicalSigned, Parse, Format, Add, Subtract, Multiply, RemovedCost, RemainingAfter, ParseNonNegative, ParseSigned, LexLess;
  }

  /** A buy adds to the cost. */
  lemma CostOfBuy(s: ExactState, e: Evidence, next: ExactState)
    requires Coherent(s) && CanonicalEvidence(e) && IsBuy(e.action) && e.grossQuoteValue != "0" && Booked(s, e, next)
    ensures Amount(next.costBasis) > 0.0
  {
    hide IsCanonicalNonNegative, IsPrinted, IsRollbackFlat, Amount, Abs, AverageCostKept;
    AmountOfCanonical(s.costBasis);
    AmountOfCanonical(e.grossQuoteValue);
    AmountOfCanonical(e.confirmedFee);
  }

  /** A sell that is not a full exit keeps the average cost. */
  lemma CostOfSell(s: ExactState, e: Evidence, next: ExactState)
    requires Coherent(s) && Coherent(next) && s.inventory != "0" && next.inventory != "0" && Amount(s.costBasis) > 0.0
    requires AverageCostKept(s, e, next) && !IsBuy(e.action) && !IsFullExit(e)
    ensures Amount(next.costBasis) > 0.0
  {
    hide Amount, IsCanonicalNonNegative, IsPrinted, IsRollbackFlat, IsBuy, IsFullExit, Value, Parse, IsDecimalText;
    AmountOfCanonical(s.inventory);
    AmountOfCanonical(next.inventory);
    PositiveShare(Amount(next.costBasis), Amount(s.inventory), Amount(s.costBasis), Amount(next.inventory));
  }

  lemma PositiveShare(c: real, q: real, cost: real, rest: real)
    requires q > 0.0 && cost > 0.0 && rest > 0.0 && c * q == cost * rest
    ensures c > 0.0
  {
    assert cost * rest > 0.0;
  }

  lemma ReplayedStep(s: ExactState, e: Evidence, next: ExactState)
    requires Coherent(s) && Replayed(s) && MaterialAccepted(e) && Advance(s, e) == Some(next)
    ensures Coherent(next) && Replayed(next)
  {
    hide Advance, Replayed, Coherent, Booked, AverageCostKept, CanonicalEvidence, NonBlank, Amount;
    AdvanceBooked(s, e, next);
    if IsFill(e) {
      FillFields(s, e, next);
      if next.inventory != "0" {
        CostBefore(s);
        if IsBuy(e.action) { CostOfBuy(s, e, next); } else { CostOfSell(s, e, next); }
      }
      ReplayedFill(s, e, next);
    }
  }

  lemma CostBefore(s: ExactState)
    requires Replayed(s)
    ensures s.inventory != "0" ==> Amount(s.costBasis) > 0.0
  {
    hide Amount, FewestFills;
  }

  /** The step of a fill, from the parts that do not calculate. */
  lemma ReplayedFill(s: ExactState, e: Evidence, next: ExactState)
    requires Coherent(s) && Replayed(s) && NonBlank(e.evidenceId) && IsFill(e) && Advance(s, e) == Some(next)
    requires Coherent(next) && (next.inventory != "0" ==> Amount(next.costBasis) > 0.0) && (IsBuy(e.action) ==> next.inventory != "0")
    ensures Replayed(next)
  {
    hide Advance, NonBlank, Amount, IsPrinted, IsCanonicalNonNegative, IsFill;
    FillFields(s, e, next);
    if !IsBuy(e.action) && next.inventory == "0" { ExitFields(s, e, next); }
  }

  /** Every replay of valid evidence. */
  lemma {:induction false} ReplayIsReplayed(history: seq<Evidence>, s: ExactState)
    requires Replay(history) == Some(s) && forall e :: e in history ==> MaterialAccepted(e)
    ensures Coherent(s) && Replayed(s)
  {
    hide Advance, MaterialAccepted;
    if history == [] {
      EmptyIsCoherent();
    } else {
      var before := history[..|history| - 1];
      ReplayIsReplayed(before, Replay(before).value);
      ReplayedStep(Replay(before).value, history[|history| - 1], s);
    }
  }

  lemma EmptyIsCoherent()
    ensures Coherent(EMPTY_STATE) && Replayed(EMPTY_STATE)
  {
    assert Replay([]) == Some(EMPTY_STATE);
    CashConservation([], EMPTY_STATE);
  }

  /**
   A replayed state can be turned into a routing state exactly when its profits can be read back and
   no quantity is left within the tolerance. Everything else that is asked of it follows.
   */
  lemma RoutableIff(s: ExactState)
    requires Coherent(s) && Replayed(s)
    ensures Routable(s) <==> Readable(s)
  {
    hide NonBlank, Amount, Abs, IsCanonicalSigned, IsCanonicalNonNegative, IsPrinted, IsOpenQuantity, Readable;
    TextsIff(s);
    AmountOfZero();
    OpenQuantityIff("0");
    if s.inventory != "0" { CostIsNotZero(s); }
  }

  /** An open quantity for the routing state is one that exceeds one part in 10^12. */
  lemma OpenQuantityIff(quantity: string)
    requires IsCanonicalNonNegative(quantity)
    ensures IsOpenQuantity(quantity) <==> Amount(quantity) > 0.000000000001
  {
    hide Parse, Scaled, IsDecimalText, IsCanonicalNonNegative, Amount;
    AmountOfCanonical(quantity);
    TolerancePositive();
  }

  lemma SignedTextIff(text: string)
    requires IsPrinted(text)
    ensures IsCanonicalSigned(text) <==> Amount(text) == 0.0 || Abs(Amount(text)) >= 1.0
  {
    hide IsCanonicalSigned, Parse, Format, Abs;
    SignedGrammar(Parse(text));
  }

  lemma SignedIsPrinted(text: string)
    requires IsCanonicalSigned(text)
    ensures IsPrinted(text)
  {
    hide IsCanonicalSigned, Parse, Format;
    CanonicalRoundTrip(text);
  }

  lemma TextsIff(s: ExactState)
    requires IsCanonicalNonNegative(s.inventory) && IsPrinted(s.realizedPnl) && (s.lastFullExitPnl.Some? ==> IsPrinted(s.lastFullExitPnl.value))
    ensures ReadableTexts(s) <==> Readable(s)
  {
    hide IsCanonicalSigned, IsCanonicalNonNegative, IsPrinted, Amount, Abs, IsOpenQuantity;
    SignedTextIff(s.realizedPnl);
    if s.lastFullExitPnl.Some? { SignedTextIff(s.lastFullExitPnl.value); }
    OpenQuantityIff(s.inventory);
    AmountOfCanonical(s.inventory);
  }

  lemma CostIsNotZero(s: ExactState)
    requires IsCanonicalNonNegative(s.costBasis) && Amount(s.costBasis) > 0.0
    ensures s.costBasis != "0"
  {
    hide Amount, IsCanonicalNonNegative;
    AmountOfCanonical(s.costBasis);
  }

  /** The same for the evidence of a deployment. */
  lemma RoutableOfRecords(records: seq<EvidenceRecord>, deploymentId: string, s: ExactState)
    requires Replay(Items(records)) == Some(s) && forall i :: 0 <= i < |records| ==> RecordValid(records[i], deploymentId)
    ensures Routable(s) <==> Readable(s)
  {
    hide Replay, Routable, Readable, Replayed, Coherent;
    forall e | e in Items(records) ensures MaterialAccepted(e) {
      var i :| 0 <= i < |Items(records)| && Items(records)[i] == e;
      assert RecordValid(records[i], deploymentId);
    }
    ReplayIsReplayed(Items(records), s);
    RoutableIff(s);
  }
}
