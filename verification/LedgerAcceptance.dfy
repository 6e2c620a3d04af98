/**
 When the ledger takes a fill. The laws of the ledger speak of steps that were taken; this module says,
 in amounts, which ones are: in order, with a profit that can be read back, into a position that fits
 the action, with the right remaining quantity, and with a cost share that is a finite decimal.
 */
module LedgerAcceptance {
  import opened Basics
  import opened ExactDecimals
  import opened ExactDivision
  import opened DecimalText
  import opened KeyOrder
  import opened CandidateReplay
  import opened LedgerLaws

  /** The quantity that a fill must state as remaining. A sell may exceed the position, or leave of it, one part in 10^12 and no more. */
  ghost predicate RightRemaining(action: Action, inventory: real, executed: real, remaining: real) {
    if action == Enter || action == AddOn then remaining == inventory + executed
    else
      && executed <= inventory + 0.000000000001
      && remaining == if -0.000000000001 <= inventory - executed <= 0.000000000001 then 0.0 else inventory - executed
  }

  /** The share of the cost that goes with a sold part is a finite decimal. */
  ghost predicate FiniteShare(cost: real, executed: real, inventory: real) {
    exists q: ExactDecimal :: Value(q) * inventory == cost * executed
  }

  // ---------------------------------------------------------------------------------------------
  // The remaining quantity
  // ---------------------------------------------------------------------------------------------

  lemma ToleranceIs()
    ensures Value(TOLERANCE) == 0.000000000001
  {
    TolerancePositive();
  }

  /** A printed decimal that is not negative is the only canonical text of its amount. */
  lemma PrintedIs(d: ExactDecimal, text: string)
    requires Value(d) >= 0.0 && IsCanonicalNonNegative(text)
    ensures Format(d) == text <==> Value(d) == Amount(text)
  {
    hide Format, IsCanonicalNonNegative, IsCanonicalSigned, Parse, Value, IsDecimalText;
    NonNegativeGrammar(d);
    AmountOfFormat(d);
    AmountOfCanonical(text);
    AmountOfCanonical(Format(d));
    TextDeterminedByValue(Format(d), text);
  }

  lemma RemainingIff(current: string, action: Action, executed: string, remaining: string)
    requires IsCanonicalNonNegative(current) && IsCanonicalNonNegative(executed) && IsCanonicalNonNegative(remaining)
    ensures RemainingAfter(current, action, executed) == Some(remaining) <==> RightRemaining(action, Amount(current), Amount(executed), Amount(remaining))
  {
    hide Format, IsCanonicalNonNegative, IsCanonicalSigned, Parse, Value, IsDecimalText, Amount, Add, Subtract, AbsDecimal, Compare;
    AmountOfCanonical(current);
    AmountOfCanonical(executed);
    AmountOfCanonical(remaining);
    AmountOfZero();
    ToleranceIs();
    var c, x := Parse(current), Parse(executed);
    if IsBuy(action) {
      PrintedIs(Add(c, x), remaining);
    } else if Value(c) - Value(x) > 0.000000000001 {
      PrintedIs(Subtract(c, x), remaining);
    }
  }

  // ---------------------------------------------------------------------------------------------
  // The step
  // ---------------------------------------------------------------------------------------------

  lemma ReadBackIff(s: ExactState)
    requires Coherent(s)
    ensures IsCanonicalSigned(s.realizedPnl) <==> Amount(s.realizedPnl) == 0.0 || Abs(Amount(s.realizedPnl)) >= 1.0
  {
    hide IsCanonicalNonNegative, IsCanonicalSigned, Parse, Format;
    SignedGrammar(Parse(s.realizedPnl));
  }

  /** What a sell takes out of the cost, if the texts can be read. */
  ghost function Share(s: ExactState, e: Evidence): Option<ExactDecimal> {
    var cost :- ParseNonNegative(s.costBasis);
    var executed :- ParseNonNegative(e.executedQuantity);
    var quantity :- ParseNonNegative(s.inventory);
    RemovedCost(cost, executed, quantity, e.remainingQuantity)
  }

  lemma QuotientIff(left: ExactDecimal, right: ExactDecimal, cost: real, executed: real, inventory: real)
    requires Value(left) == cost * executed && Value(right) == inventory && inventory > 0.0
    ensures Quotient(left, right).Some? <==> FiniteShare(cost, executed, inventory)
  {
    NotZero(right);
    hide Value, Quotient;
    if q: ExactDecimal :| Value(q) * inventory == cost * executed {
      assert IsQuotient(q, left, right);
      QuotientUnique(q, left, right);
    }
    if Quotient(left, right).Some? { assert IsQuotient(Quotient(left, right).value, left, right); }
  }

  /** A full exit takes the whole cost; the share of a partial sell exists exactly when it is finite. */
  lemma ShareIff(s: ExactState, e: Evidence)
    requires Coherent(s) && CanonicalEvidence(e) && s.inventory != "0"
    ensures Share(s, e).Some? <==> e.remainingQuantity == "0" || FiniteShare(Amount(s.costBasis), Amount(e.executedQuantity), Amount(s.inventory))
  {
    hide IsCanonicalNonNegative, IsDecimalText, Parse, Amount, Value, IsPrinted, IsRollbackFlat, RemovedCost, FiniteShare;
    AmountOfCanonical(s.costBasis);
    AmountOfCanonical(e.executedQuantity);
    AmountOfCanonical(s.inventory);
    RemovedIff(Parse(s.costBasis), Parse(e.executedQuantity), Parse(s.inventory), e.remainingQuantity);
  }

  lemma RemovedIff(cost: ExactDecimal, executed: ExactDecimal, quantity: ExactDecimal, remaining: string)
    requires Value(quantity) > 0.0
    ensures RemovedCost(cost, executed, quantity, remaining).Some? <==> remaining == "0" || FiniteShare(Value(cost), Value(executed), Value(quantity))
  {
    hide Multiply, AbsDecimal, Value, Quotient, FiniteShare;
    QuotientIff(Multiply(cost, executed), AbsDecimal(quantity), Value(cost), Value(executed), Value(quantity));
  }

  lemma NotZero(d: ExactDecimal)
    requires Value(d) > 0.0
    ensures d.coefficient != 0
  {
    ScaledZero(d.scale);
  }

  lemma BuyFolds(s: ExactState, e: Evidence)
    requires Coherent(s) && CanonicalEvidence(e) && IsBuy(e.action)
    ensures Fold(s, e, e.remainingQuantity).Some? <==>
              IsCanonicalSigned(s.realizedPnl) && (if e.action.Enter? then s.inventory == "0" else s.inventory != "0")
  {
    hide IsCanonicalNonNegative, IsCanonicalSigned, Parse, Format, Add, IsPrinted;
  }

  lemma SellFolds(s: ExactState, e: Evidence)
    requires Coherent(s) && CanonicalEvidence(e) && !IsBuy(e.action)
    ensures Fold(s, e, e.remainingQuantity).Some? <==> IsCanonicalSigned(s.realizedPnl) && s.inventory != "0" && Share(s, e).Some?
  {
    hide IsCanonicalNonNegative, IsCanonicalSigned, Parse, Format, Add, Subtract, Multiply, IsPrinted, RemovedCost;
  }

  /** Not before the last fill, and at its instant only under a later identifier. */
  predicate Later(s: ExactState, e: Evidence) {
    s.lastEvidenceAt.Some? && s.lastEvidenceId.Some? ==>
      s.lastEvidenceAt.value.epochNs < e.executedAt.epochNs ||
      (s.lastEvidenceAt.value.epochNs == e.executedAt.epochNs && LexLess(s.lastEvidenceId.value, e.evidenceId))
  }

  lemma AdvanceParts(s: ExactState, e: Evidence)
    requires Coherent(s)
    ensures IsFill(e) ==> (Advance(s, e).Some? <==>
              CanonicalEvidence(e) && Later(s, e) && RemainingAfter(s.inventory, e.action, e.executedQuantity) == Some(e.remainingQuantity) &&
              Fold(s, e, e.remainingQuantity).Some?)
    ensures !IsFill(e) ==> (Advance(s, e) == (if CanonicalEvidence(e) && Later(s, e) && e.remainingQuantity == s.inventory then Some(s) else None))
  {
    hide IsCanonicalNonNegative, IsPrinted, Fold, RemainingAfter, IsRollbackFlat;
  }

  /**
   A fill is taken exactly when its texts are canonical, it is later than the last one, the realized
   profit is zero or at least one in magnitude, it enters a flat position, adds to an open one, or sells
   of an open one no more than there is, up to one part in 10^12, and states what remains; a partial
   sell must have a finite cost share besides.
   */
  lemma FillAcceptedIff(s: ExactState, e: Evidence)
    requires Coherent(s) && IsFill(e)
    ensures Advance(s, e).Some? <==>
              && CanonicalEvidence(e)
              && (s.lastEvidenceAt.Some? && s.lastEvidenceId.Some? ==>
                    s.lastEvidenceAt.value.epochNs < e.executedAt.epochNs ||
                    (s.lastEvidenceAt.value.epochNs == e.executedAt.epochNs && LexLess(s.lastEvidenceId.value, e.evidenceId)))
              && (Amount(s.realizedPnl) == 0.0 || Abs(Amount(s.realizedPnl)) >= 1.0)
              && var inventory, executed, remaining := Amount(s.inventory), Amount(e.executedQuantity), Amount(e.remainingQuantity);
                 match e.action
                 case Enter => inventory == 0.0 && remaining == executed
                 case AddOn => inventory > 0.0 && remaining == inventory + executed
                 case _ =>
                   && inventory > 0.0 && executed <= inventory + 0.000000000001
                   && if -0.000000000001 <= inventory - executed <= 0.000000000001 then remaining == 0.0
                      else remaining == inventory - executed && FiniteShare(Amount(s.costBasis), executed, inventory)
  {
    hide IsCanonicalNonNegative, IsCanonicalSigned, IsPrinted, IsRollbackFlat, Advance, RemainingAfter, Fold, Parse, Amount, Abs, LexLess, FiniteShare, Share;
    AdvanceParts(s, e);
    ReadBackIff(s);
    AmountOfCanonical(s.inventory);
    if CanonicalEvidence(e) {
      RemainingIff(s.inventory, e.action, e.executedQuantity, e.remainingQuantity);
      AmountOfCanonical(e.remainingQuantity);
      if IsBuy(e.action) {
        BuyFolds(s, e);
      } else {
        SellFolds(s, e);
        if s.inventory != "0" { ShareIff(s, e); }
      }
    }
  }

  /** Evidence without a fill is taken exactly when it is canonical, later, and states the quantity there is; it changes nothing. */
  lemma NoFillAcceptedIff(s: ExactState, e: Evidence)
    requires Coherent(s) && !IsFill(e)
    ensures Advance(s, e).Some? <==>
              && CanonicalEvidence(e)
              && (s.lastEvidenceAt.Some? && s.lastEvidenceId.Some? ==>
                    s.lastEvidenceAt.value.epochNs < e.executedAt.epochNs ||
                    (s.lastEvidenceAt.value.epochNs == e.executedAt.epochNs && LexLess(s.lastEvidenceId.value, e.evidenceId)))
              && Amount(e.remainingQuantity) == Amount(s.inventory)
    ensures Advance(s, e).Some? ==> Advance(s, e).value == s
  {
    hide IsCanonicalNonNegative, IsCanonicalSigned, IsPrinted, IsRollbackFlat, Advance, Parse, Amount, LexLess, Value, IsDecimalText;
    AdvanceParts(s, e);
    if CanonicalEvidence(e) {
      AmountOfCanonical(e.remainingQuantity);
      AmountOfCanonical(s.inventory);
      TextDeterminedByValue(e.remainingQuantity, s.inventory);
    }
  }

  // ---------------------------------------------------------------------------------------------
  // In and out again
  // ---------------------------------------------------------------------------------------------

  /** All of it sold for 3. */
  const EXIT_ALL := Evidence("x", Timestamp(3, ""), Exit, NoEntry, Filled, "2", "3", "0", "0")

  lemma ThreeText()
    ensures IsCanonicalNonNegative("3") && Parse("3") == ExactDecimal(3, 0) && Format(ExactDecimal(3, 0)) == "3"
  {
    assert "3" + [] == "3";
    DotAfterDigits("3", []);
    assert ParseDigits("3") == 10 * ParseDigits([]) + 3;
    CanonicalRoundTrip("3");
  }

  lemma ExampleAmounts()
    ensures Amount("0") == 0.0 && Amount("2") == 2.0 && Amount("3") == 3.0 && Amount("1") == 1.0
    ensures IsCanonicalNonNegative("0") && IsCanonicalNonNegative("2") && IsCanonicalNonNegative("3") && IsCanonicalNonNegative("1")
  {
    hide Parse, IsCanonicalNonNegative, Format;
    AmountOfZero();
    ThreeText();
    StallTexts();
    StallValues();
    AmountOfCanonical("1");
    AmountOfCanonical("2");
    AmountOfCanonical("3");
  }

  /** Two bought for 2 and sold for 3: the position is flat again, and its profit of 1 is recorded. */
  lemma EnterAndExit()
    ensures Replay([STALL_ENTRY, EXIT_ALL]) ==
              Some(ExactState(0, "0", "0", "0", Some(Timestamp(3, "")), Some("1"), Some(Pullback), Some(Timestamp(3, "")), Some("x"), 2))
  {
    hide Advance, Format, IsCanonicalSigned, IsCanonicalNonNegative, Amount, Parse;
    var history := [STALL_ENTRY, EXIT_ALL];
    var _ := StallSteps();
    assert history == [] + [STALL_ENTRY] + [EXIT_ALL];
    EpisodeStep([], STALL_ENTRY);
    EpisodeStep([] + [STALL_ENTRY], EXIT_ALL);
    CashConservation([] + [STALL_ENTRY], AFTER_ENTRY);
    ExampleAmounts();
    FillAcceptedIff(AFTER_ENTRY, EXIT_ALL);
    var s := Advance(AFTER_ENTRY, EXIT_ALL).value;
    AdvanceBooked(AFTER_ENTRY, EXIT_ALL, s);
    ExitFields(AFTER_ENTRY, EXIT_ALL, s);
    var profit := s.lastFullExitPnl.value;
    AmountOfPrinted(profit);
    PrintedIs(Parse(profit), "1");
  }

  lemma AmountOfPrinted(s: string)
    requires IsPrinted(s)
    ensures IsDecimalText(s) && Amount(s) == Value(Parse(s)) && Format(Parse(s)) == s
  {
  }

  /** What a full exit writes besides the books. */
  lemma ExitFields(s: ExactState, e: Evidence, next: ExactState)
    requires IsFill(e) && !IsBuy(e.action) && e.remainingQuantity == "0" && Advance(s, e) == Some(next)
    ensures next.lastFullExitAt == Some(e.executedAt) && next.lastEntryPath == s.lastEntryPath
    ensures next.lastEvidenceAt == Some(e.executedAt) && next.lastEvidenceId == Some(e.evidenceId)
    ensures next.lastFullExitPnl.Some? && IsPrinted(next.lastFullExitPnl.value)
  {
    hide IsCanonicalNonNegative, IsCanonicalSigned, Parse, Format, Add, Subtract, Multiply, Quotient, RemainingAfter, LexLess;
    var cost, pnl, gross, fee := Parse(s.costBasis), Parse(s.realizedPnl), Parse(e.grossQuoteValue), Parse(e.confirmedFee);
    FormatIsPrinted(Subtract(Add(pnl, Subtract(gross, fee)), cost));
  }
}
