/**
 The exact candidate ledger: execution evidence folded into the state of an episode, from the entry
 out of a flat position to the full exit back into one. Amounts are canonical decimal texts, as the
 repository persists them; a step that the source throws on is `None`.
 */
module CandidateReplay {
  import opened Basics
  import opened ExactDecimals
  import opened ExactDivision
  import opened DecimalText
  import opened KeyOrder

  /** A parsed timestamp. Several texts denote one instant, and the source compares both ways. */
  datatype Timestamp = Timestamp(epochNs: int, text: string)

  datatype Action = Enter | AddOn | Reduce | Exit

  datatype EntryPath = Pullback | Reclaim | BreakoutHold | NoEntry

  datatype TerminalStatus = Filled | Canceled

  datatype Evidence = Evidence(
    evidenceId: string,
    executedAt: Timestamp,
    action: Action,
    entryPath: EntryPath,
    terminalStatus: TerminalStatus,
    executedQuantity: string,
    grossQuoteValue: string,
    confirmedFee: string,
    remainingQuantity: string)

  datatype ExactState = ExactState(
    addCount: nat,
    costBasis: string,
    inventory: string,
    realizedPnl: string,
    lastFullExitAt: Option<Timestamp>,
    lastFullExitPnl: Option<string>,
    lastEntryPath: Option<EntryPath>,
    lastEvidenceAt: Option<Timestamp>,
    lastEvidenceId: Option<string>,
    stateVersion: nat)

  const EMPTY_STATE := ExactState(0, "0", "0", "0", None, None, None, None, None, 0)

  /** EXACT_QUANTITY_TOLERANCE, 10^-12. */
  const TOLERANCE := ExactDecimal(1, 12)

  predicate IsBuy(action: Action) { action.Enter? || action.AddOn? }

  predicate IsFill(e: Evidence) { e.executedQuantity != "0" }

  /** isExactRollbackFlat. */
  predicate IsRollbackFlat(s: ExactState) {
    s.addCount == 0 && s.costBasis == "0" && s.inventory == "0" && s.realizedPnl == "0"
  }

  function EvidenceKey(e: Evidence): Key { Key(e.executedAt.epochNs, e.evidenceId) }

  predicate CanonicalEvidence(e: Evidence) {
    && IsCanonicalNonNegative(e.executedQuantity)
    && IsCanonicalNonNegative(e.grossQuoteValue)
    && IsCanonicalNonNegative(e.confirmedFee)
    && IsCanonicalNonNegative(e.remainingQuantity)
  }

  function ParseNonNegative(s: string): (r: Option<ExactDecimal>)
    ensures r.Some? <==> IsCanonicalNonNegative(s)
    ensures r.Some? ==> IsDecimalText(s) && r.value == Parse(s)
  {
    if IsCanonicalNonNegative(s) then
      CanonicalRoundTrip(s);
      Some(Parse(s))
    else None
  }

  function ParseSigned(s: string): (r: Option<ExactDecimal>)
    ensures r.Some? <==> IsCanonicalSigned(s)
    ensures r.Some? ==> IsDecimalText(s) && r.value == Parse(s)
  {
    if IsCanonicalSigned(s) then
      CanonicalRoundTrip(s);
      Some(Parse(s))
    else None
  }

  /** assertExactChronology: strictly after the last fill that was folded in. */
  predicate InChronology(s: ExactState, e: Evidence) {
    s.lastEvidenceAt.None? ||
    KeyLess(Key(s.lastEvidenceAt.value.epochNs, if s.lastEvidenceId.Some? then s.lastEvidenceId.value else ""),
            EvidenceKey(e))
  }

  /** deriveExactRemainingQuantity. */
  function RemainingAfter(current: string, action: Action, executed: string): Option<string> {
    var c :- ParseNonNegative(current);
    var x :- ParseNonNegative(executed);
    if IsBuy(action) then Some(Format(Add(c, x)))
    else if Compare(x, Add(c, TOLERANCE)) > 0 then None
    else
      var remaining := Subtract(c, x);
      if Compare(AbsDecimal(remaining), TOLERANCE) <= 0 then Some("0") else Some(Format(remaining))
  }

  /** The part of the cost basis that a sell takes out. */
  ghost function RemovedCost(cost: ExactDecimal, executed: ExactDecimal, quantity: ExactDecimal, remaining: string): Option<ExactDecimal> {
    if remaining == "0" then Some(cost) else Quotient(Multiply(cost, executed), AbsDecimal(quantity))
  }

  function AfterBuy(s: ExactState, e: Evidence, remaining: string, cost: ExactDecimal, gross: ExactDecimal, fee: ExactDecimal): Option<ExactState> {
    if e.action.Enter? && s.inventory != "0" then None
    else if e.action.AddOn? && s.inventory == "0" then None
    else Some(s.(
      inventory := remaining,
      costBasis := Format(Add(cost, Add(gross, fee))),
      lastEntryPath := if e.action.Enter? then Some(e.entryPath) else s.lastEntryPath,
      addCount := if e.action.AddOn? then s.addCount + 1 else s.addCount))
  }

  function AfterSell(s: ExactState, e: Evidence, remaining: string, cost: ExactDecimal, removed: ExactDecimal, realized: ExactDecimal): ExactState {
    if remaining == "0" then
      s.(addCount := 0, costBasis := "0", inventory := "0", realizedPnl := "0",
         lastFullExitAt := Some(e.executedAt), lastFullExitPnl := Some(Format(realized)))
    else
      s.(costBasis := Format(Subtract(cost, removed)), inventory := remaining, realizedPnl := Format(realized))
  }

  function Stamped(s: ExactState, e: Evidence): ExactState {
    s.(lastEvidenceAt := Some(e.executedAt), lastEvidenceId := Some(e.evidenceId), stateVersion := s.stateVersion + 1)
  }

  /** The step of a fill, once remaining quantity and chronology are found right. */
  ghost function Fold(s: ExactState, e: Evidence, remaining: string): Option<ExactState> {
    var cost :- ParseNonNegative(s.costBasis);
    var quantity :- ParseNonNegative(s.inventory);
    var pnl :- ParseSigned(s.realizedPnl);
    var executed :- ParseNonNegative(e.executedQuantity);
    var gross :- ParseNonNegative(e.grossQuoteValue);
    var fee :- ParseNonNegative(e.confirmedFee);
    if IsBuy(e.action) then
      var next :- AfterBuy(s, e, remaining, cost, gross, fee);
      Some(Stamped(next, e))
    else if s.inventory == "0" then None
    else
      var removed :- RemovedCost(cost, executed, quantity, remaining);
      var realized := Subtract(Add(pnl, Subtract(gross, fee)), removed);
      Some(Stamped(AfterSell(s, e, remaining, cost, removed, realized), e))
  }

  /** advanceExactCandidateState. */
  ghost function Advance(s: ExactState, e: Evidence): Option<ExactState> {
    if !CanonicalEvidence(e) || !InChronology(s, e) then None
    else if !IsFill(e) then
      if e.remainingQuantity != s.inventory then None else Some(s)
    else if RemainingAfter(s.inventory, e.action, e.executedQuantity) != Some(e.remainingQuantity) then None
    else Fold(s, e, e.remainingQuantity)
  }

  /** The fold over evidence in the given order. */
  ghost function Replay(history: seq<Evidence>): Option<ExactState> {
    if history == [] then Some(EMPTY_STATE)
    else
      var s :- Replay(history[..|history| - 1]);
      Advance(s, history[|history| - 1])
  }

  /** projectExactCandidateState: the fold in chronological order. */
  ghost function Project(evidence: seq<Evidence>): Option<ExactState> {
    Replay(Sort(evidence, EvidenceKey))
  }

  // ---------------------------------------------------------------------------------------------
  // The executable form
  // ---------------------------------------------------------------------------------------------

  method AdvanceExactCandidateState(s: ExactState, e: Evidence) returns (r: Option<ExactState>)
    ensures r == Advance(s, e)
  {
    if !CanonicalEvidence(e) || !InChronology(s, e) { return None; }
    if !IsFill(e) {
      return if e.remainingQuantity != s.inventory then None else Some(s);
    }
    var expectedRemaining := RemainingAfter(s.inventory, e.action, e.executedQuantity);
    if expectedRemaining != Some(e.remainingQuantity) { return None; }
    r := FoldFill(s, e, e.remainingQuantity);
  }

  method FoldFill(s: ExactState, e: Evidence, remaining: string) returns (r: Option<ExactState>)
    ensures r == Fold(s, e, remaining)
  {
    hide IsCanonicalNonNegative, IsCanonicalSigned, Parse, Format, Add, Subtract, Multiply, Quotient;
    var cost, quantity, pnl := ParseNonNegative(s.costBasis), ParseNonNegative(s.inventory), ParseSigned(s.realizedPnl);
    var executed, gross, fee := ParseNonNegative(e.executedQuantity), ParseNonNegative(e.grossQuoteValue), ParseNonNegative(e.confirmedFee);
    if cost.None? || quantity.None? || pnl.None? || executed.None? || gross.None? || fee.None? { return None; }
    var next := s;
    if IsBuy(e.action) {
      if (e.action.Enter? && s.inventory != "0") || (e.action.AddOn? && s.inventory == "0") { return None; }
      next := next.(inventory := remaining, costBasis := Format(Add(cost.value, Add(gross.value, fee.value))));
      if e.action.Enter? { next := next.(lastEntryPath := Some(e.entryPath)); }
      if e.action.AddOn? { next := next.(addCount := next.addCount + 1); }
    } else {
      if s.inventory == "0" { return None; }
      var removed := cost;
      if remaining != "0" {
        removed := DivideExactDecimals(Multiply(cost.value, executed.value), quantity.value);
        if removed.None? { return None; }
      }
      var realized := Subtract(Add(pnl.value, Subtract(gross.value, fee.value)), removed.value);
      if remaining == "0" {
        next := next.(addCount := 0, costBasis := "0", inventory := "0", realizedPnl := "0");
        next := next.(lastFullExitAt := Some(e.executedAt), lastFullExitPnl := Some(Format(realized)));
      } else {
        next := next.(costBasis := Format(Subtract(cost.value, removed.value)));
        next := next.(inventory := remaining, realizedPnl := Format(realized));
      }
    }
    next := next.(lastEvidenceAt := Some(e.executedAt), lastEvidenceId := Some(e.evidenceId));
    r := Some(next.(stateVersion := next.stateVersion + 1));
  }

  method ProjectExactCandidateState(evidence: seq<Evidence>) returns (r: Option<ExactState>)
    ensures r == Project(evidence)
  {
    hide Sort, Advance;
    var ordered := Sort(evidence, EvidenceKey);
    var state := EMPTY_STATE;
    for i := 0 to |ordered|
      invariant Replay(ordered[..i]) == Some(state)
    {
      assert ordered[..i + 1][..i] == ordered[..i];
      var next := AdvanceExactCandidateState(state, ordered[i]);
      if next.None? {
        ReplayFailsOnward(ordered, i + 1);
        return None;
      }
      state := next.value;
    }
    assert ordered[..|ordered|] == ordered;
    r := Some(state);
  }

  /** A failed beginning fails the whole. */
  lemma {:induction false} ReplayFailsOnward(history: seq<Evidence>, i: nat)
    requires i <= |history| && Replay(history[..i]) == None
    ensures Replay(history) == None
  {
    if i == |history| {
      assert history[..i] == history;
    } else {
      assert history[..|history| - 1][..i] == history[..i];
      ReplayFailsOnward(history[..|history| - 1], i);
    }
  }
}
