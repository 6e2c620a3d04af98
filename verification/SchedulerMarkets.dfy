/**
 What the scheduler says of a market: its counters, and whether it is running. In every interleaving
 the counters are those of the market's results; the mark that it is running is cleared by a deferred
 tick and by a blocked start even while a run is under way.
 */
module SchedulerMarkets {
  import opened Basics
  import opened S = Scheduler

  // ---------------------------------------------------------------------------------------------
  // Counters
  // ---------------------------------------------------------------------------------------------

  /** How many of a market's results have one of the wanted statuses. */
  function Count(results: seq<(Market, RunStatus)>, market: Market, wanted: set<RunStatus>): nat {
    if results == [] then 0
    else
      var last := results[|results| - 1];
      Count(results[..|results| - 1], market, wanted) + if last.0 == market && last.1 in wanted then 1 else 0
  }

  lemma CountGrows(results: seq<(Market, RunStatus)>, r: (Market, RunStatus), market: Market, wanted: set<RunStatus>)
    ensures Count(results + [r], market, wanted) == Count(results, market, wanted) + if r.0 == market && r.1 in wanted then 1 else 0
  {
    assert (results + [r])[..|results|] == results;
  }

  lemma {:induction false} CountSplits(results: seq<(Market, RunStatus)>, market: Market, a: set<RunStatus>, b: set<RunStatus>)
    requires a !! b
    ensures Count(results, market, a + b) == Count(results, market, a) + Count(results, market, b)
  {
    if results != [] { CountSplits(results[..|results| - 1], market, a, b); }
  }

  const SKIPS := {AlreadyRunning, SkippedRun}

  /** The counters of a market are the numbers of its results of each kind. */
  ghost predicate CountersTell(m: MarketStatus, results: seq<(Market, RunStatus)>, market: Market) {
    m.runCount == Count(results, market, {Completed} + {FailedRun}) && m.successCount == Count(results, market, {Completed}) &&
    m.failureCount == Count(results, market, {FailedRun}) && m.skippedCount == Count(results, market, SKIPS)
  }

  ghost predicate AllCountersTell(statuses: map<Market, MarketStatus>, results: seq<(Market, RunStatus)>) {
    forall market :: market in statuses ==> CountersTell(statuses[market], results, market)
  }

  lemma ResultTold(m: MarketStatus, results: seq<(Market, RunStatus)>, market: Market, r: (Market, RunStatus))
    requires CountersTell(m, results, market)
    ensures r.0 != market ==> CountersTell(m, results + [r], market)
    ensures r.0 == market ==> CountersTell(Apply(map[market := m], market, r.1)[market], results + [r], market)
    ensures r == (market, AlreadyRunning) && m.running ==> CountersTell(Enter(map[market := m], market)[market], results + [r], market)
  {
    hide Count;
    CountGrows(results, r, market, {Completed} + {FailedRun});
    CountGrows(results, r, market, {Completed});
    CountGrows(results, r, market, {FailedRun});
    CountGrows(results, r, market, SKIPS);
  }

  lemma AppliedTold(statuses: map<Market, MarketStatus>, results: seq<(Market, RunStatus)>, market: Market, status: RunStatus)
    requires AllCountersTell(statuses, results)
    ensures AllCountersTell(Apply(statuses, market, status), results + [(market, status)])
  {
    hide CountersTell;
    forall m | m in statuses ensures CountersTell(Apply(statuses, market, status)[m], results + [(market, status)], m) {
      ResultTold(statuses[m], results, m, (market, status));
    }
  }

  lemma RunningTold(m: MarketStatus, results: seq<(Market, RunStatus)>, market: Market)
    requires CountersTell(m, results, market)
    ensures CountersTell(m.(running := true), results, market)
  {
    hide Count;
  }

  lemma EnteredTold(statuses: map<Market, MarketStatus>, results: seq<(Market, RunStatus)>, market: Market)
    requires AllCountersTell(statuses, results) && market in statuses
    ensures AllCountersTell(Enter(statuses, market), if statuses[market].running then results + [(market, AlreadyRunning)] else results)
  {
    hide CountersTell;
    if statuses[market].running {
      forall m | m in statuses ensures CountersTell(Enter(statuses, market)[m], results + [(market, AlreadyRunning)], m) {
        ResultTold(statuses[m], results, m, (market, AlreadyRunning));
      }
    } else {
      RunningTold(statuses[market], results, market);
    }
  }

  lemma IdleTold(statuses: map<Market, MarketStatus>, results: seq<(Market, RunStatus)>)
    requires AllCountersTell(statuses, results)
    ensures AllCountersTell(AllIdle(statuses), results)
  {
    hide Count;
  }

  lemma CountersKept(h: History, step: Step)
    requires AllCountersTell(h.scheduler.statuses, h.results) && Next(h, step).Some?
    ensures AllCountersTell(Next(h, step).value.scheduler.statuses, Next(h, step).value.results)
  {
    hide AllCountersTell, Apply, Enter, Under, AllIdle;
    var s := h.scheduler;
    match step {
      case Take => AppliedTold(s.statuses, h.results, s.queue[0].market, SkippedRun);
      case BeginRun(market) => EnteredTold(s.statuses, h.results, market);
      case EndRun(market, status) => AppliedTold(s.statuses, h.results, market, status);
      case StartAll(_) => IdleTold(s.statuses, h.results);
      case _ =>
    }
  }

  /** In every interleaving a market's counters are those of its results; what ran succeeded or failed. */
  lemma {:induction false} RunsAreCounted(h: History, steps: seq<Step>, market: Market)
    requires Initial(h) && Run(h, steps).Some? && market in Run(h, steps).value.scheduler.statuses
    ensures var x := Run(h, steps).value; var m := x.scheduler.statuses[market];
            CountersTell(m, x.results, market) && m.runCount == m.successCount + m.failureCount
  {
    AllRunsCounted(h, steps);
    hide *;
    AllTell(Run(h, steps).value, market);
    CountSplits(Run(h, steps).value.results, market, {Completed}, {FailedRun});
  }

  lemma AllTell(x: History, market: Market)
    requires AllCountersTell(x.scheduler.statuses, x.results) && market in x.scheduler.statuses
    ensures var m := x.scheduler.statuses[market];
            CountersTell(m, x.results, market) && m.runCount == Count(x.results, market, {Completed} + {FailedRun}) &&
            m.successCount == Count(x.results, market, {Completed}) && m.failureCount == Count(x.results, market, {FailedRun})
  {
  }

  lemma {:induction false} AllRunsCounted(h: History, steps: seq<Step>)
    requires Initial(h) && Run(h, steps).Some?
    ensures AllCountersTell(Run(h, steps).value.scheduler.statuses, Run(h, steps).value.results)
  {
    hide Next;
    if steps != [] {
      hide AllCountersTell;
      AllRunsCounted(h, steps[..|steps| - 1]);
      CountersKept(Run(h, steps[..|steps| - 1]).value, steps[|steps| - 1]);
    }
  }

  // ---------------------------------------------------------------------------------------------
  // One run at a time
  // ---------------------------------------------------------------------------------------------

  /** A run of the market is under way, and the market is marked idle: another run may begin. */
  predicate Exposed(h: History, market: Market) {
    market in h.scheduler.statuses && Under(h, market) > 0 && !h.scheduler.statuses[market].running
  }

  /** The step clears the mark of a market of which a run is under way: a deferred tick, or a blocked start. */
  predicate Clears(h: History, step: Step, market: Market) {
    var s := h.scheduler;
    Under(h, market) > 0 &&
    match step
    case Take => s.current.None? && s.queue != [] && s.queue[0].market == market && TurnOf(s, s.queue[0]) == Deferred
    case StartAll(blocked) => blocked && !s.stopBegun && s.enabled && !s.started
    case _ => false
  }

  /** Some step of the run has cleared the market's mark during a run of it. */
  ghost predicate MarkCleared(h: History, steps: seq<Step>, market: Market) {
    steps != [] && Run(h, steps[..|steps| - 1]).Some? &&
    (MarkCleared(h, steps[..|steps| - 1], market) || Clears(Run(h, steps[..|steps| - 1]).value, steps[|steps| - 1], market))
  }

  /** At some moment of the run the market was exposed to a second run. */
  ghost predicate EverExposed(h: History, steps: seq<Step>, market: Market) {
    Run(h, steps).Some? && (Exposed(Run(h, steps).value, market) || (steps != [] && EverExposed(h, steps[..|steps| - 1], market)))
  }

  /** At some moment of the run two runs of the market were under way. */
  ghost predicate EverTwice(h: History, steps: seq<Step>, market: Market) {
    Run(h, steps).Some? && (Under(Run(h, steps).value, market) >= 2 || (steps != [] && EverTwice(h, steps[..|steps| - 1], market)))
  }

  /** At most one run is under way, and the market is marked. */
  predicate Single(h: History, market: Market) {
    market in h.scheduler.statuses && Under(h, market) <= 1 && (Under(h, market) == 1 ==> h.scheduler.statuses[market].running)
  }

  lemma StepsMark(h: History, step: Step, market: Market)
    requires Next(h, step).Some? && market in h.scheduler.statuses
    ensures var x := Next(h, step).value;
            market in x.scheduler.statuses && (Clears(h, step, market) ==> Exposed(x, market)) &&
            (Single(h, market) && !Clears(h, step, market) ==> Single(x, market))
  {
    hide WasLiveOrderSubmitted, BatchKey, Apply, Enter, AllIdle;
    var s := h.scheduler;
    match step {
      case Take => ApplyMark(s.statuses, s.queue[0].market, SkippedRun, market);
      case BeginRun(m) => EnterMark(s.statuses, m, market);
      case EndRun(m, status) => ApplyMark(s.statuses, m, status, market);
      case StartAll(_) => IdleMark(s.statuses, market);
      case _ =>
    }
  }

  lemma ApplyMark(statuses: map<Market, MarketStatus>, m: Market, status: RunStatus, market: Market)
    requires market in statuses
    ensures var x := Apply(statuses, m, status); market in x && x[market].running == (m != market && statuses[market].running)
  {
  }

  lemma EnterMark(statuses: map<Market, MarketStatus>, m: Market, market: Market)
    requires market in statuses && m in statuses
    ensures var x := Enter(statuses, m); market in x && x[market].running == (m == market || statuses[market].running)
  {
  }

  lemma IdleMark(statuses: map<Market, MarketStatus>, market: Market)
    requires market in statuses
    ensures market in AllIdle(statuses) && !AllIdle(statuses)[market].running
  {
  }

  lemma {:induction false} MarketsStay(h: History, steps: seq<Step>, market: Market)
    requires Run(h, steps).Some? && market in h.scheduler.statuses
    ensures market in Run(h, steps).value.scheduler.statuses
  {
    hide Next, Clears, Exposed, Single;
    if steps != [] {
      var before := Run(h, steps[..|steps| - 1]).value;
      MarketsStay(h, steps[..|steps| - 1], market);
      StepsMark(before, steps[|steps| - 1], market);
    }
  }

  /** While no step has cleared the mark, the market runs at most once at a time. */
  lemma {:induction false} UnclearedIsSingle(h: History, steps: seq<Step>, market: Market)
    requires Initial(h) && Run(h, steps).Some? && market in h.scheduler.statuses && !MarkCleared(h, steps, market)
    ensures Single(Run(h, steps).value, market) && !EverExposed(h, steps, market) && !EverTwice(h, steps, market)
  {
    hide Next, Clears;
    if steps != [] {
      var before := Run(h, steps[..|steps| - 1]).value;
      MarketsStay(h, steps[..|steps| - 1], market);
      UnclearedIsSingle(h, steps[..|steps| - 1], market);
      StepsMark(before, steps[|steps| - 1], market);
    }
  }

  lemma {:induction false} ClearedIsExposed(h: History, steps: seq<Step>, market: Market)
    requires Run(h, steps).Some? && market in h.scheduler.statuses && MarkCleared(h, steps, market)
    ensures EverExposed(h, steps, market)
  {
    hide Next, Clears, Exposed;
    var front := steps[..|steps| - 1];
    MarketsStay(h, front, market);
    if MarkCleared(h, front, market) {
      ClearedIsExposed(h, front, market);
    } else {
      StepsMark(Run(h, front).value, steps[|steps| - 1], market);
    }
  }

  /** A market is exposed to a second run at some moment exactly when some step cleared its mark during a run; otherwise it runs once at a time. */
  lemma ExposedIff(h: History, steps: seq<Step>, market: Market)
    requires Initial(h) && Run(h, steps).Some? && market in h.scheduler.statuses
    ensures EverExposed(h, steps, market) <==> MarkCleared(h, steps, market)
    ensures EverTwice(h, steps, market) ==> MarkCleared(h, steps, market)
  {
    hide *;
    if MarkCleared(h, steps, market) { ClearedIsExposed(h, steps, market); } else { UnclearedIsSingle(h, steps, market); }
  }

  /** Beside a run that is under way another one can begin exactly when the market is exposed and no stop has begun. */
  lemma SecondRunBeginsIff(h: History, market: Market)
    requires Under(h, market) > 0
    ensures Next(h, BeginRun(market)).Some? && Under(Next(h, BeginRun(market)).value, market) > Under(h, market) <==>
            Exposed(h, market) && !h.scheduler.stopBegun
  {
  }

  const BITCOIN: Market := "KRW-BTC"
  const ETHER: Market := "KRW-ETH"
  const SENT := RunResult(Completed, Some("order"), Some(true))

  /** Two ticks of one second: bitcoin's sends an order, and ether's is deferred while a manual run of ether is under way. */
  function TwoEtherRuns(): seq<Step> {
    [StartAll(false), Fire(Tick(BITCOIN, 1000)), Fire(Tick(ETHER, 1000)), Take, BeginRun(BITCOIN), EndRun(BITCOIN, Completed),
     Finish(Some(SENT)), BeginRun(ETHER), Take, BeginRun(ETHER)]
  }

  function Fresh(): History {
    History(Scheduler(true, true, false, false, map[BITCOIN := IDLE, ETHER := IDLE], [], None, None), [], [], map[], [])
  }

  lemma StepAt(h: History, steps: seq<Step>, k: nat)
    requires k < |steps| && Run(h, steps[..k]).Some?
    ensures Run(h, steps[..k + 1]) == Next(Run(h, steps[..k]).value, steps[k])
  {
    hide Next;
    assert steps[..k + 1][..k] == steps[..k];
  }

  const STARTED := Scheduler(true, true, true, false, map[BITCOIN := IDLE, ETHER := IDLE], [], None, None)

  lemma BitcoinBegun()
    ensures var x := Run(Fresh(), TwoEtherRuns()[..5]);
            x.Some? && x.value.underWay == map[BITCOIN := 1] &&
            x.value.scheduler == STARTED.(statuses := map[BITCOIN := MarketStatus(true, 0, 0, 0, 0), ETHER := IDLE],
                                          queue := [Tick(ETHER, 1000)], current := Some(Tick(BITCOIN, 1000)))
  {
    hide Run;
    var h, steps := Fresh(), TwoEtherRuns();
    assert steps[..0] == [];
    RunNothing(h);
    StepAt(h, steps, 0);
    StepAt(h, steps, 1);
    StepAt(h, steps, 2);
    StepAt(h, steps, 3);
    StepAt(h, steps, 4);
  }

  /** After bitcoin's order, with ether's tick still queued. */
  lemma BitcoinSent()
    ensures var x := Run(Fresh(), TwoEtherRuns()[..7]);
            x.Some? && x.value.underWay == map[BITCOIN := 0] &&
            x.value.scheduler == STARTED.(statuses := map[BITCOIN := MarketStatus(false, 1, 1, 0, 0), ETHER := IDLE],
                                          queue := [Tick(ETHER, 1000)], orderSubmittedBatchKey := Some(1000))
  {
    hide Run;
    BitcoinBegun();
    StepAt(Fresh(), TwoEtherRuns(), 5);
    StepAt(Fresh(), TwoEtherRuns(), 6);
  }

  /** From its creation the scheduler reaches two runs of one market at once. */
  lemma TwoRunsAtOnce()
    ensures Initial(Fresh()) && Run(Fresh(), TwoEtherRuns()).Some? && Under(Run(Fresh(), TwoEtherRuns()).value, ETHER) == 2
  {
    hide Run;
    var h, steps := Fresh(), TwoEtherRuns();
    BitcoinSent();
    StepAt(h, steps, 7);
    StepAt(h, steps, 8);
    StepAt(h, steps, 9);
    assert steps[..10] == steps;
  }

  lemma RunNothing(h: History)
    ensures Run(h, []) == Some(h)
  {
  }
}
