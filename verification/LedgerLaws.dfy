/**
 What the ledger conserves, over every history it accepts.
 */
module LedgerLaws {
  import opened Basics
  import opened ExactDecimals
  import opened ExactDivision
  import opened DecimalText
  import opened KeyOrder
  import opened CandidateReplay

  /** The number a decimal text denotes. */
  ghost function Amount(s: string): real {
    if IsDecimalText(s) then Value(Parse(s)) else 0.0
  }

  lemma AmountOfFormat(d: ExactDecimal)
    ensures Amount(Format(d)) == Value(d)
  {
    ParseOfFormat(d);
  }

  lemma AmountOfZero()
    ensures Amount("0") == 0.0 && IsCanonicalNonNegative("0") && IsCanonicalSigned("0") && IsPrinted("0")
  {
    ZeroText();
    CanonicalRoundTrip("0");
    assert Unsigned("0") == "0";
    assert Parse("0") == ExactDecimal(0, 0);
  }

  /** Canonical non-negative texts: never negative, and zero only when they read "0". */
  lemma AmountOfCanonical(s: string)
    requires IsCanonicalNonNegative(s)
    ensures IsDecimalText(s) && Amount(s) == Value(Parse(s)) >= 0.0
    ensures Amount(s) == 0.0 <==> s == "0"
  {
    CanonicalRoundTrip(s);
    NonNegativeGrammar(Parse(s));
    AmountOfZero();
    TextDeterminedByValue(s, "0");
  }

  // ---------------------------------------------------------------------------------------------
  // Episodes and their flows, read off the evidence alone
  // ---------------------------------------------------------------------------------------------

  /** A filled sell that reports nothing left. */
  predicate IsFullExit(e: Evidence) {
    IsFill(e) && !IsBuy(e.action) && e.remainingQuantity == "0"
  }

  /** The fills since the last full exit. */
  function OpenEpisode(history: seq<Evidence>): seq<Evidence> {
    if history == [] then []
    else
      var last, before := history[|history| - 1], OpenEpisode(history[..|history| - 1]);
      if !IsFill(last) then before else if IsFullExit(last) then [] else before + [last]
  }

  ghost function CashFlow(e: Evidence): real {
    if IsBuy(e.action) then Amount(e.grossQuoteValue) + Amount(e.confirmedFee)
    else -(Amount(e.grossQuoteValue) - Amount(e.confirmedFee))
  }

  /** Money spent on buys less money received from sells. */
  ghost function NetOutlay(episode: seq<Evidence>): real {
    if episode == [] then 0.0
    else NetOutlay(episode[..|episode| - 1]) + CashFlow(episode[|episode| - 1])
  }

  /** Quantity bought less quantity sold. */
  ghost function NetQuantity(episode: seq<Evidence>): real {
    if episode == [] then 0.0
    else
      var last := episode[|episode| - 1];
      NetQuantity(episode[..|episode| - 1])
      + (if IsBuy(last.action) then Amount(last.executedQuantity) else -Amount(last.executedQuantity))
  }

  function FillCount(history: seq<Evidence>): nat {
    if history == [] then 0
    else FillCount(history[..|history| - 1]) + (if IsFill(history[|history| - 1]) then 1 else 0)
  }

  // ---------------------------------------------------------------------------------------------
  // One step
  // ---------------------------------------------------------------------------------------------

  /** What every reachable state keeps. */
  ghost predicate Coherent(s: ExactState) {
    && IsCanonicalNonNegative(s.inventory)
    && IsCanonicalNonNegative(s.costBasis)
    && IsPrinted(s.realizedPnl)
    && (s.inventory == "0" ==> IsRollbackFlat(s))
    && (s.lastEvidenceAt.Some? <==> s.lastEvidenceId.Some?)
  }

  /** The text of some decimal, as the printer writes it. */
  ghost predicate IsPrinted(s: string) {
    IsDecimalText(s) && Format(Parse(s)) == s
  }

  lemma FormatIsPrinted(d: ExactDecimal)
    ensures IsPrinted(Format(d))
  {
    ParseOfFormat(d);
    NormalIsFixed(Normalize(d));
  }

  ghost function ToleranceValue(): real { Value(TOLERANCE) }

  lemma TolerancePositive()
    ensures ToleranceValue() > 0.0 && 1000000000000.0 * ToleranceValue() == 1.0
  {
  }

  /** The inventory texts before and after a fill, as numbers. */
  lemma RemainingAmount(current: string, action: Action, executed: string, remaining: string)
    requires IsCanonicalNonNegative(current) && IsCanonicalNonNegative(executed)
    requires RemainingAfter(current, action, executed) == Some(remaining)
    ensures IsCanonicalNonNegative(remaining)
    ensures IsBuy(action) ==> Amount(remaining) == Amount(current) + Amount(executed)
    ensures !IsBuy(action) && remaining != "0" ==> Amount(remaining) == Amount(current) - Amount(executed) > 0.0
    ensures !IsBuy(action) && remaining == "0" ==> Abs(Amount(current) - Amount(executed)) <= ToleranceValue()
  {
    AmountOfCanonical(current);
    AmountOfCanonical(executed);
    AmountOfZero();
    TolerancePositive();
    var c, x := Parse(current), Parse(executed);
    if IsBuy(action) {
      AmountOfFormat(Add(c, x));
      NonNegativeGrammar(Add(c, x));
    } else {
      var difference := Subtract(c, x);
      AmountOfFormat(difference);
      NonNegativeGrammar(difference);
      AmountOfFormat(ZERO);
    }
  }

  /** Taking a share q/Q of the cost out leaves the average cost C/Q as it was. */
  lemma ProportionalShare(cost: real, quantity: real, executed: real, removed: real)
    requires quantity > 0.0 && cost >= 0.0 && executed < quantity
    requires removed * quantity == cost * executed
    ensures (cost - removed) * quantity == cost * (quantity - executed)
    ensures cost - removed >= 0.0
  {
    assert (cost - removed) * quantity >= 0.0;
  }

  /** The effect of a fill on the books. */
  ghost predicate Booked(s: ExactState, e: Evidence, next: ExactState) {
    var inventory, cost, pnl := Amount(s.inventory), Amount(s.costBasis), Amount(s.realizedPnl);
    var quantity := Amount(e.executedQuantity);
    if IsBuy(e.action) then
      && Amount(next.inventory) == inventory + quantity
      && Amount(next.costBasis) == cost + CashFlow(e)
      && next.realizedPnl == s.realizedPnl
      && next.lastFullExitPnl == s.lastFullExitPnl
    else if IsFullExit(e) then
      && IsRollbackFlat(next)
      && Abs(inventory - quantity) <= ToleranceValue()
      && next.lastFullExitPnl.Some?
      && Amount(next.lastFullExitPnl.value) == pnl - CashFlow(e) - cost
    else
      && Amount(next.inventory) == inventory - quantity
      && Amount(next.costBasis) - Amount(next.realizedPnl) == cost - pnl + CashFlow(e)
      && next.lastFullExitPnl == s.lastFullExitPnl
  }

  /** C' * Q == C * Q': a sell that is not a full exit leaves the average cost as it was. */
  ghost predicate AverageCostKept(s: ExactState, e: Evidence, next: ExactState) {
    !IsBuy(e.action) && !IsFullExit(e) ==>
      Amount(next.costBasis) * Amount(s.inventory) == Amount(s.costBasis) * Amount(next.inventory)
  }

  lemma BuyBooked(s: ExactState, e: Evidence, next: ExactState)
    requires Coherent(s) && CanonicalEvidence(e) && IsFill(e) && IsBuy(e.action)
    requires RemainingAfter(s.inventory, e.action, e.executedQuantity) == Some(e.remainingQuantity)
    requires Fold(s, e, e.remainingQuantity) == Some(next)
    ensures Coherent(next) && next.inventory != "0" && Booked(s, e, next)
  {
    RemainingAmount(s.inventory, e.action, e.executedQuantity, e.remainingQuantity);
    AmountOfCanonical(s.inventory);
    AmountOfCanonical(s.costBasis);
    AmountOfCanonical(e.executedQuantity);
    AmountOfCanonical(e.grossQuoteValue);
    AmountOfCanonical(e.confirmedFee);
    AmountOfCanonical(e.remainingQuantity);
    BuyAmounts(s, e, next);
  }

  /** The buy's arithmetic, once every text is known to denote its amount. */
  lemma BuyAmounts(s: ExactState, e: Evidence, next: ExactState)
    requires Coherent(s) && CanonicalEvidence(e) && IsFill(e) && IsBuy(e.action)
    requires Fold(s, e, e.remainingQuantity) == Some(next)
    requires forall t :: t in {s.inventory, s.costBasis, e.executedQuantity, e.grossQuoteValue, e.confirmedFee} ==>
               IsDecimalText(t) && Amount(t) == Value(Parse(t)) >= 0.0
    requires IsCanonicalNonNegative(e.remainingQuantity) && e.remainingQuantity != "0"
    requires Amount(e.remainingQuantity) == Amount(s.inventory) + Amount(e.executedQuantity)
    ensures Coherent(next) && next.inventory != "0" && Booked(s, e, next)
  {
    hide IsCanonicalNonNegative, IsCanonicalSigned, IsDecimalText, IsPrinted, Parse, Format, Add, Subtract, Multiply, Quotient, Amount;
    var cost, gross, fee := Parse(s.costBasis), Parse(e.grossQuoteValue), Parse(e.confirmedFee);
    var total := Add(cost, Add(gross, fee));
    AmountOfFormat(total);
    NonNegativeGrammar(total);
  }

  lemma SellBooked(s: ExactState, e: Evidence, next: ExactState)
    requires Coherent(s) && CanonicalEvidence(e) && IsFill(e) && !IsBuy(e.action)
    requires RemainingAfter(s.inventory, e.action, e.executedQuantity) == Some(e.remainingQuantity)
    requires Fold(s, e, e.remainingQuantity) == Some(next)
    ensures Coherent(next) && (next.inventory == "0" <==> IsFullExit(e)) && Booked(s, e, next)
    ensures AverageCostKept(s, e, next) && s.inventory != "0"
  {
    RemainingAmount(s.inventory, e.action, e.executedQuantity, e.remainingQuantity);
    AmountOfCanonical(s.inventory);
    AmountOfCanonical(s.costBasis);
    AmountOfCanonical(e.executedQuantity);
    AmountOfCanonical(e.grossQuoteValue);
    AmountOfCanonical(e.confirmedFee);
    AmountOfCanonical(e.remainingQuantity);
    AmountOfZero();
    AmountOfPnl(s.realizedPnl);
    SellAmounts(s, e, next);
  }

  lemma AmountOfPnl(s: string)
    ensures IsCanonicalSigned(s) ==> IsDecimalText(s) && Amount(s) == Value(Parse(s))
  {
    if IsCanonicalSigned(s) { CanonicalRoundTrip(s); }
  }

  /** The sell's arithmetic, once every text is known to denote its amount. */
  lemma SellAmounts(s: ExactState, e: Evidence, next: ExactState)
    requires Coherent(s) && CanonicalEvidence(e) && IsFill(e) && !IsBuy(e.action)
    requires Fold(s, e, e.remainingQuantity) == Some(next)
    requires IsCanonicalNonNegative("0") && Amount("0") == 0.0 && IsPrinted("0")
    requires forall t :: t in {s.inventory, s.costBasis, e.executedQuantity, e.grossQuoteValue, e.confirmedFee} ==>
               IsDecimalText(t) && Amount(t) == Value(Parse(t)) >= 0.0
    requires IsCanonicalSigned(s.realizedPnl) ==> IsDecimalText(s.realizedPnl) && Amount(s.realizedPnl) == Value(Parse(s.realizedPnl))
    requires s.inventory == "0" <==> Amount(s.inventory) == 0.0
    requires e.remainingQuantity != "0" ==> Amount(e.remainingQuantity) == Amount(s.inventory) - Amount(e.executedQuantity) > 0.0
    requires e.remainingQuantity == "0" ==> Abs(Amount(s.inventory) - Amount(e.executedQuantity)) <= ToleranceValue()
    ensures Coherent(next) && (next.inventory == "0" <==> IsFullExit(e)) && Booked(s, e, next)
    ensures AverageCostKept(s, e, next) && s.inventory != "0"
  {
    hide IsCanonicalNonNegative, IsCanonicalSigned, IsDecimalText, IsPrinted, Parse, Format, Add, Subtract, Multiply, Quotient,
      Amount, Abs, AbsDecimal;
    var cost, quantity, pnl := Parse(s.costBasis), Parse(s.inventory), Parse(s.realizedPnl);
    var executed, gross, fee := Parse(e.executedQuantity), Parse(e.grossQuoteValue), Parse(e.confirmedFee);
    var removed := RemovedCost(cost, executed, quantity, e.remainingQuantity).value;
    var realized := Subtract(Add(pnl, Subtract(gross, fee)), removed);
    AmountOfFormat(realized);
    FormatIsPrinted(realized);
    if e.remainingQuantity != "0" {
      var rest := Subtract(cost, removed);
      AmountOfFormat(rest);
      QuotientShare(cost, quantity, executed, removed);
      NonNegativeGrammar(rest);
    }
  }

  lemma QuotientShare(cost: ExactDecimal, quantity: ExactDecimal, executed: ExactDecimal, removed: ExactDecimal)
    requires Value(cost) >= 0.0 && Value(executed) < Value(quantity) && Value(quantity) > 0.0
    requires Quotient(Multiply(cost, executed), AbsDecimal(quantity)) == Some(removed)
    ensures Value(cost) - Value(removed) >= 0.0
    ensures (Value(cost) - Value(removed)) * Value(quantity) == Value(cost) * (Value(quantity) - Value(executed))
  {
    hide Multiply, AbsDecimal, Value;
    ProportionalShare(Value(cost), Value(quantity), Value(executed), Value(removed));
  }

  lemma FoldVersion(s: ExactState, e: Evidence, remaining: string, next: ExactState)
    requires Fold(s, e, remaining) == Some(next)
    ensures next.stateVersion == s.stateVersion + 1
    ensures next.lastEvidenceAt == Some(e.executedAt) && next.lastEvidenceId == Some(e.evidenceId)
  {
    hide IsCanonicalNonNegative, IsCanonicalSigned, Parse, Format, Add, Subtract, Multiply, RemovedCost;
  }

  /** Every accepted step keeps the books, and only fills change them. */
  lemma AdvanceBooked(s: ExactState, e: Evidence, next: ExactState)
    requires Coherent(s) && Advance(s, e) == Some(next)
    ensures Coherent(next)
    ensures !IsFill(e) ==> next == s
    ensures IsFill(e) ==>
              Booked(s, e, next) && AverageCostKept(s, e, next)
              && (next.inventory == "0" <==> IsFullExit(e)) && (IsBuy(e.action) || s.inventory != "0")
    ensures next.stateVersion == s.stateVersion + (if IsFill(e) then 1 else 0)
    ensures CanonicalEvidence(e)
  {
    hide Fold, RemainingAfter, Booked, AverageCostKept, Coherent, Amount, IsCanonicalNonNegative;
    if IsFill(e) {
      FoldVersion(s, e, e.remainingQuantity, next);
      if IsBuy(e.action) {
        BuyBooked(s, e, next);
        BuyIsNoSell(s, e, next);
      } else {
        SellBooked(s, e, next);
      }
    }
  }

  lemma BuyIsNoSell(s: ExactState, e: Evidence, next: ExactState)
    requires IsBuy(e.action)
    ensures AverageCostKept(s, e, next) && !IsFullExit(e)
  {
  }

  // ---------------------------------------------------------------------------------------------
  // Whole histories
  // ---------------------------------------------------------------------------------------------

  /** Unfolding the sums over one more fill. */
  lemma EpisodeStep(history: seq<Evidence>, e: Evidence)
    ensures OpenEpisode(history + [e]) ==
            if !IsFill(e) then OpenEpisode(history) else if IsFullExit(e) then [] else OpenEpisode(history) + [e]
    ensures FillCount(history + [e]) == FillCount(history) + (if IsFill(e) then 1 else 0)
    ensures Replay(history + [e]) == match Replay(history) case Some(s) => Advance(s, e) case None => None
  {
    assert (history + [e])[..|history|] == history;
  }

  lemma SumStep(episode: seq<Evidence>, e: Evidence)
    ensures NetOutlay(episode + [e]) == NetOutlay(episode) + CashFlow(e)
    ensures NetQuantity(episode + [e]) == NetQuantity(episode)
              + (if IsBuy(e.action) then Amount(e.executedQuantity) else -Amount(e.executedQuantity))
  {
    assert (episode + [e])[..|episode|] == episode;
  }

  /**
   The state of the books after a history: the cost basis less the realized profit is the net outlay
   of the open episode, the inventory is the net quantity of it, and each fill counts once.
   */
  ghost predicate BooksBalance(history: seq<Evidence>, s: ExactState) {
    && Coherent(s)
    && Amount(s.costBasis) - Amount(s.realizedPnl) == NetOutlay(OpenEpisode(history))
    && Amount(s.inventory) == NetQuantity(OpenEpisode(history))
    && Amount(s.inventory) >= 0.0 && Amount(s.costBasis) >= 0.0
    && s.stateVersion == FillCount(history)
  }

  lemma BooksStep(history: seq<Evidence>, s: ExactState, e: Evidence, next: ExactState)
    requires BooksBalance(history, s) && Advance(s, e) == Some(next)
    ensures BooksBalance(history + [e], next)
  {
    hide Replay, Advance, Amount, IsCanonicalNonNegative, IsDecimalText, Parse, Value, OpenEpisode, AverageCostKept,
      FillCount, Abs, CashFlow, CanonicalEvidence, Booked, NetOutlay, NetQuantity;
    EpisodeStep(history, e);
    AdvanceBooked(s, e, next);
    if IsFill(e) {
      AmountOfCanonical(next.inventory);
      AmountOfCanonical(next.costBasis);
      if IsFullExit(e) { FullExitCloses(s, e, next); } else { FillExtends(OpenEpisode(history), s, e, next); }
    }
  }

  lemma FullExitCloses(s: ExactState, e: Evidence, next: ExactState)
    requires Booked(s, e, next) && IsFullExit(e)
    ensures Amount(next.costBasis) - Amount(next.realizedPnl) == NetOutlay([])
    ensures Amount(next.inventory) == NetQuantity([])
  {
    hide Amount, Abs, CashFlow, ToleranceValue;
    AmountOfZero();
  }

  lemma FillExtends(episode: seq<Evidence>, s: ExactState, e: Evidence, next: ExactState)
    requires Booked(s, e, next) && !IsFullExit(e)
    requires Amount(s.costBasis) - Amount(s.realizedPnl) == NetOutlay(episode)
    requires Amount(s.inventory) == NetQuantity(episode)
    ensures Amount(next.costBasis) - Amount(next.realizedPnl) == NetOutlay(episode + [e])
    ensures Amount(next.inventory) == NetQuantity(episode + [e])
  {
    SumStep(episode, e);
    hide Amount, Abs, CashFlow, ToleranceValue, NetOutlay, NetQuantity;
  }

  lemma BooksStart()
    ensures BooksBalance([], EMPTY_STATE)
  {
    AmountOfZero();
    hide Amount, IsCanonicalNonNegative;
  }

  /** The books balance along every accepted history. */
  lemma {:induction false} CashConservation(history: seq<Evidence>, s: ExactState)
    requires Replay(history) == Some(s)
    ensures BooksBalance(history, s)
  {
    hide Advance, BooksBalance;
    if history == [] {
      BooksStart();
    } else {
      var init, e := history[..|history| - 1], history[|history| - 1];
      assert history == init + [e];
      CashConservation(init, Replay(init).value);
      BooksStep(init, Replay(init).value, e, s);
    }
  }

  /**
   The profit recorded at a full exit is the net cash the whole episode brought in, however partial
   sells allocated the cost; the quantity that the exit drops is within the tolerance.
   */
  lemma FullExitProfit(history: seq<Evidence>, e: Evidence, s: ExactState)
    requires Replay(history + [e]) == Some(s) && IsFullExit(e)
    ensures IsRollbackFlat(s)
    ensures s.lastFullExitPnl.Some? && Amount(s.lastFullExitPnl.value) == -NetOutlay(OpenEpisode(history) + [e])
    ensures Abs(NetQuantity(OpenEpisode(history) + [e])) <= ToleranceValue()
  {
    hide Advance, Amount, IsCanonicalNonNegative, IsDecimalText, Parse, Value, CashFlow, ToleranceValue, CanonicalEvidence,
      NetOutlay, NetQuantity;
    EpisodeStep(history, e);
    var before := Replay(history).value;
    CashConservation(history, before);
    AdvanceBooked(before, e, s);
    SumStep(OpenEpisode(history), e);
  }

  /** A partial sell keeps the average cost: C' * Q == C * Q', with C' and Q' what is left. */
  lemma PartialSellKeepsAverageCost(history: seq<Evidence>, e: Evidence, s: ExactState, next: ExactState)
    requires Replay(history) == Some(s) && Advance(s, e) == Some(next)
    requires IsFill(e) && !IsBuy(e.action) && !IsFullExit(e)
    ensures Amount(next.costBasis) * Amount(s.inventory) == Amount(s.costBasis) * Amount(next.inventory)
    ensures Amount(next.costBasis) >= 0.0 && 0.0 < Amount(next.inventory) < Amount(s.inventory)
  {
    hide Advance, Amount, IsCanonicalNonNegative, IsDecimalText, Parse, Value, CashFlow, NetOutlay, NetQuantity, OpenEpisode, Replay,
      FillCount;
    CashConservation(history, s);
    AdvanceBooked(s, e, next);
    AmountOfCanonical(next.costBasis);
    AmountOfCanonical(next.inventory);
    AmountOfCanonical(e.executedQuantity);
  }

  /** A sell needs an open position, and leaves less of it. */
  lemma SellShrinks(s: ExactState, e: Evidence, next: ExactState)
    requires Coherent(s) && Advance(s, e) == Some(next) && IsFill(e) && !IsBuy(e.action)
    ensures s.inventory != "0" && Amount(next.inventory) < Amount(s.inventory)
  {
    hide Advance, Amount, IsCanonicalNonNegative, IsDecimalText, Parse, Value, CashFlow, Abs;
    AdvanceBooked(s, e, next);
    AmountOfCanonical(s.inventory);
    AmountOfCanonical(e.executedQuantity);
    AmountOfZero();
  }

  // ---------------------------------------------------------------------------------------------
  // Where the ledger gets stuck
  // ---------------------------------------------------------------------------------------------

  function ProbeFill(s: ExactState): Evidence
    requires IsCanonicalNonNegative(s.inventory)
  {
    var action := if s.inventory == "0" then Enter else AddOn;
    var at := if s.lastEvidenceAt.Some? then s.lastEvidenceAt.value.epochNs + 1 else 0;
    var remaining := RemainingAfter(s.inventory, action, "1");
    Evidence("probe", Timestamp(at, ""), action, Pullback, Filled, "1", "1", "0", if remaining.Some? then remaining.value else "")
  }

  lemma OneText()
    ensures IsCanonicalNonNegative("1") && Unsigned("1") == "1" && Parse("1") == ExactDecimal(1, 0)
  {
    assert "1" + [] == "1";
    DotAfterDigits("1", []);
    assert ParseDigits("1") == 10 * ParseDigits([]) + 1;
  }

  /**
   Some fill can follow exactly when the signed grammar takes the realized profit back, that is when
   the profit is zero or at least one in magnitude.
   */
  lemma NextFillIff(s: ExactState)
    requires Coherent(s)
    ensures (exists e :: IsFill(e) && Advance(s, e).Some?) <==> IsCanonicalSigned(s.realizedPnl)
    ensures IsCanonicalSigned(s.realizedPnl) <==> Amount(s.realizedPnl) == 0.0 || Abs(Amount(s.realizedPnl)) >= 1.0
  {
    hide IsCanonicalNonNegative, Parse, Format, Add, Value, Subtract, Multiply, Compare, AbsDecimal;
    SignedGrammar(Parse(s.realizedPnl));
    var e := ProbeFill(s);
    OneText();
    ZeroText();
    RemainingAmount(s.inventory, e.action, "1", e.remainingQuantity);
    if IsCanonicalSigned(s.realizedPnl) {
      assert Advance(s, e).Some?;
      assert IsFill(e);
    }
  }

  const STALL_ENTRY := Evidence("a", Timestamp(1, ""), Enter, Pullback, Filled, "2", "2", "0", "2")
  const STALL_REDUCE := Evidence("b", Timestamp(2, ""), Reduce, NoEntry, Filled, "1", "1.5", "0", "1")

  lemma TwoText()
    ensures IsCanonicalNonNegative("2") && Unsigned("2") == "2" && Parse("2") == ExactDecimal(2, 0)
  {
    assert "2" + [] == "2";
    DotAfterDigits("2", []);
    assert ParseDigits("2") == 10 * ParseDigits([]) + 2;
  }

  lemma OneAndAHalfText()
    ensures IsCanonicalNonNegative("1.5") && Unsigned("1.5") == "1.5" && Parse("1.5") == ExactDecimal(15, 1)
  {
    FifteenDigits();
    JoinedText("1", "5");
    assert "1" + "." + "5" == "1.5" && "1" + "5" == "15";
  }

  lemma FifteenDigits()
    ensures AllDigits("15") && ParseDigits("15") == 15
  {
    assert "15"[..1] == "1" && "1"[..0] == [];
    assert ParseDigits("1") == 10 * ParseDigits([]) + 1;
  }

  const AFTER_ENTRY := EMPTY_STATE.(inventory := "2", costBasis := "2", lastEntryPath := Some(Pullback),
    lastEvidenceAt := Some(Timestamp(1, "")), lastEvidenceId := Some("a"), stateVersion := 1)

  lemma StallTexts()
    ensures ParseNonNegative("0") == Some(ZERO) && ParseSigned("0") == Some(ZERO)
    ensures ParseNonNegative("1") == Some(ExactDecimal(1, 0)) && Format(ExactDecimal(1, 0)) == "1"
    ensures ParseNonNegative("2") == Some(ExactDecimal(2, 0)) && Format(ExactDecimal(2, 0)) == "2"
    ensures ParseNonNegative("1.5") == Some(ExactDecimal(15, 1))
  {
    TwoText();
    OneText();
    OneAndAHalfText();
    AmountOfZero();
    ZeroText();
    assert Parse("0") == ZERO;
    hide IsCanonicalNonNegative, IsCanonicalSigned, Parse, Format;
    CanonicalRoundTrip("1");
    CanonicalRoundTrip("2");
  }

  lemma StallValues()
    ensures Value(ZERO) == 0.0 && Value(ExactDecimal(1, 0)) == 1.0 && Value(ExactDecimal(2, 0)) == 2.0
    ensures Value(ExactDecimal(15, 1)) == 1.5 && Value(ExactDecimal(5, 1)) == 0.5
  {
  }

  /** The sums and products of the example, by the values of their operands. */
  lemma StallArithmetic()
    ensures var two, one, sale := ExactDecimal(2, 0), ExactDecimal(1, 0), ExactDecimal(15, 1);
            && Add(ZERO, two) == Add(two, ZERO) == two && Subtract(two, one) == one
            && Multiply(two, one) == two && AbsDecimal(two) == two
            && Subtract(sale, ZERO) == Add(ZERO, sale) == sale && Subtract(sale, one) == ExactDecimal(5, 1)
            && Quotient(two, two) == Some(one)
  {
    StallValues();
    hide Value, Add, Subtract, Multiply, AbsDecimal;
    var two, one, sale := ExactDecimal(2, 0), ExactDecimal(1, 0), ExactDecimal(15, 1);
    NormalFormUnique(Add(ZERO, two), two);
    NormalFormUnique(Add(two, ZERO), two);
    NormalFormUnique(Subtract(two, one), one);
    NormalFormUnique(Multiply(two, one), two);
    NormalFormUnique(AbsDecimal(two), two);
    NormalFormUnique(Subtract(sale, ZERO), sale);
    NormalFormUnique(Add(ZERO, sale), sale);
    NormalFormUnique(Subtract(sale, one), ExactDecimal(5, 1));
    QuotientUnique(one, two, two);
    NormalFormUnique(Normalize(one), one);
  }

  lemma StallRemaining()
    ensures RemainingAfter("0", Enter, "2") == Some("2")
    ensures RemainingAfter("2", Reduce, "1") == Some("1")
  {
    hide *;
    StallBought();
    StallSold();
  }

  lemma StallBought()
    ensures RemainingAfter("0", Enter, "2") == Some("2")
  {
    hide ParseNonNegative, ParseSigned, Format, Add, Subtract, AbsDecimal, Value, Compare, Multiply, Quotient;
    StallTexts();
    StallArithmetic();
  }

  lemma StallSold()
    ensures RemainingAfter("2", Reduce, "1") == Some("1")
  {
    hide ParseNonNegative, ParseSigned, Format, Add, Subtract, AbsDecimal, Value, Compare, Multiply, Quotient;
    StallTexts();
    StallValues();
    StallArithmetic();
    TolerancePositive();
  }

  lemma StallEntryFold()
    ensures Fold(EMPTY_STATE, STALL_ENTRY, "2") == Some(AFTER_ENTRY)
  {
    hide IsCanonicalNonNegative, IsCanonicalSigned, ParseNonNegative, ParseSigned, Format, Add, RemovedCost, Multiply, Quotient,
      Subtract, Value, Parse, IsDecimalText;
    StallTexts();
    StallArithmetic();
  }

  lemma StallReduceFold() returns (s: ExactState)
    ensures Fold(AFTER_ENTRY, STALL_REDUCE, "1") == Some(s)
    ensures s.inventory == "1" && s.realizedPnl == Format(ExactDecimal(5, 1))
  {
    hide IsCanonicalNonNegative, IsCanonicalSigned, ParseNonNegative, ParseSigned, Format, Add, Multiply, Quotient, Subtract,
      AbsDecimal, Value, Parse, IsDecimalText;
    StallTexts();
    StallArithmetic();
    s := Fold(AFTER_ENTRY, STALL_REDUCE, "1").value;
  }

  lemma StallSteps() returns (s: ExactState)
    ensures Advance(EMPTY_STATE, STALL_ENTRY) == Some(AFTER_ENTRY)
    ensures Advance(AFTER_ENTRY, STALL_REDUCE) == Some(s)
    ensures s.inventory == "1" && s.realizedPnl == Format(ExactDecimal(5, 1))
  {
    hide IsCanonicalNonNegative, Format, RemainingAfter, Fold, Parse, ParseNonNegative, ParseSigned;
    StallTexts();
    StallRemaining();
    StallEntryFold();
    s := StallReduceFold();
  }

  /** Two bought for 2, one sold for 1.5: the profit is 0.5, and no fill is accepted ever after. */
  lemma HalfProfitStalls()
    ensures var r := Replay([STALL_ENTRY, STALL_REDUCE]);
            r.Some? && r.value.inventory == "1" && forall e :: IsFill(e) ==> Advance(r.value, e).None?
  {
    hide Advance, Format, IsCanonicalSigned;
    var s := StallSteps();
    var history := [STALL_ENTRY, STALL_REDUCE];
    assert history == [] + [STALL_ENTRY] + [STALL_REDUCE];
    EpisodeStep([], STALL_ENTRY);
    EpisodeStep([] + [STALL_ENTRY], STALL_REDUCE);
    CashConservation(history, s);
    NextFillIff(s);
    SignedGrammar(ExactDecimal(5, 1));
  }

  // ---------------------------------------------------------------------------------------------
  // Order of the evidence
  // ---------------------------------------------------------------------------------------------

  /** The projection depends on the set of evidence, not on the order it is listed in. */
  lemma ProjectionOrderFree(evidence: seq<Evidence>, permuted: seq<Evidence>)
    requires DistinctKeys(evidence, EvidenceKey) && multiset(evidence) == multiset(permuted)
    ensures Project(evidence) == Project(permuted)
  {
    SortOrderFree(evidence, permuted, EvidenceKey);
  }

  /** Adding the chronologically last item is one step. */
  lemma ProjectionIncremental(evidence: seq<Evidence>, e: Evidence)
    requires DistinctKeys(evidence, EvidenceKey)
    requires forall x :: x in evidence ==> KeyLess(EvidenceKey(x), EvidenceKey(e))
    ensures Project(evidence + [e]) == match Project(evidence) case Some(s) => Advance(s, e) case None => None
  {
    var sorted := Sort(evidence, EvidenceKey);
    SortSorted(evidence, EvidenceKey);
    forall i | 0 <= i < |sorted| ensures KeyLess(EvidenceKey(sorted[i]), EvidenceKey(e)) {
      assert sorted[i] in multiset(evidence);
    }
    assert StrictlySorted(sorted + [e], EvidenceKey);
    forall i, j | 0 <= i < j < |evidence + [e]| ensures EvidenceKey((evidence + [e])[i]) != EvidenceKey((evidence + [e])[j]) {
      if j == |evidence| { assert evidence[i] in evidence; KeyTotal(EvidenceKey(evidence[i]), EvidenceKey(e)); }
    }
    assert multiset(evidence + [e]) == multiset(sorted + [e]);
    SortOrderFree(evidence + [e], sorted + [e], EvidenceKey);
    SortOfSorted(sorted + [e], EvidenceKey);
    EpisodeStep(sorted, e);
  }
}
