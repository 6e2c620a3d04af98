/**
 The scheduler as an object: each method is what runs between two awaits, and does to the fields what
 the functions of module Scheduler say.
 */
module SchedulerObject {
  import opened Basics
  import opened Scheduler
  import Spec = Scheduler

  class StrategyScheduler {
    const enabled: bool
    const liveAdapter: bool
    const markets: seq<Market>
    var started: bool
    var stopBegun: bool
    var statusByMarket: map<Market, MarketStatus>
    var scheduledRunQueue: seq<Tick>
    var currentTick: Option<Tick>
    var orderSubmittedBatchKey: Option<int>

    function State(): Spec.Scheduler
      reads this
    {
      Scheduler(enabled, liveAdapter, started, stopBegun, statusByMarket, scheduledRunQueue, currentTick, orderSubmittedBatchKey)
    }

    constructor (enabled: bool, liveAdapter: bool, markets: seq<Market>)
      ensures this.markets == markets && State() == Scheduler(enabled, liveAdapter, false, false, map m | m in markets :: IDLE, [], None, None)
    {
      this.enabled, this.liveAdapter, this.markets := enabled, liveAdapter, markets;
      started, stopBegun, scheduledRunQueue, currentTick, orderSubmittedBatchKey := false, false, [], None, None;
      statusByMarket := map[];
      new;
      var i := 0;
      while i < |markets|
        invariant 0 <= i <= |markets|
        invariant statusByMarket == map m | m in markets[..i] :: IDLE
        invariant scheduledRunQueue == [] && currentTick.None? && orderSubmittedBatchKey.None? && !started && !stopBegun
      {
        statusByMarket := statusByMarket[markets[i] := IDLE];
        i := i + 1;
      }
      assert markets[..i] == markets;
    }

    /** A blocking preflight marks every market idle instead of starting. */
    method Start(blocked: bool) returns (ok: bool)
      modifies this`started, this`statusByMarket
      ensures ok <==> Spec.Start(old(State()), blocked).Some?
      ensures State() == if ok then Spec.Start(old(State()), blocked).value else old(State())
    {
      if stopBegun { return false; }
      if !enabled || started { return true; }
      if blocked {
        statusByMarket := AllIdle(statusByMarket);
        return true;
      }
      started := true;
      ok := true;
    }

    method Stop()
      modifies this`started, this`stopBegun
      ensures State() == Spec.Stop(old(State()))
    {
      stopBegun := true;
      started := false;
    }

    method ApplyRunResult(market: Market, result: RunStatus)
      modifies this`statusByMarket
      ensures State() == old(State()).(statuses := Apply(old(statusByMarket), market, result))
    {
      if market !in statusByMarket { return; }
      var current := statusByMarket[market];
      var success := result == Completed;
      var skipped := result == AlreadyRunning || result == SkippedRun;
      statusByMarket := statusByMarket[market := current.(
        running := false,
        runCount := current.runCount + (if skipped then 0 else 1),
        successCount := current.successCount + (if success then 1 else 0),
        failureCount := current.failureCount + (if !success && !skipped then 1 else 0),
        skippedCount := current.skippedCount + (if skipped then 1 else 0))];
    }

    /** A stop that has begun refuses it, an unknown market throws, and a running market only counts a skip. */
    method RunMarketNow(market: Market) returns (answer: RunAnswer)
      modifies this`statusByMarket
      ensures (State(), answer) == RunNow(old(State()), market)
    {
      if stopBegun { return Refused; }
      if market !in statusByMarket { return Unsupported; }
      var current := statusByMarket[market];
      if current.running {
        statusByMarket := statusByMarket[market := current.(skippedCount := current.skippedCount + 1)];
        return Skipped;
      }
      statusByMarket := statusByMarket[market := current.(running := true)];
      answer := Begun;
    }

    method EnqueueScheduledMarketRun(market: Market, batchKey: int)
      modifies this`scheduledRunQueue
      ensures State() == Enqueue(old(State()), Tick(market, batchKey))
    {
      scheduledRunQueue := scheduledRunQueue + [Tick(market, batchKey)];
    }

    /** The turn of the first queued tick; the one before it is done. */
    method TakeNext() returns (turn: Turn)
      requires currentTick.None? && scheduledRunQueue != []
      modifies this`scheduledRunQueue, this`currentTick, this`statusByMarket
      ensures turn == TurnOf(old(State()), old(scheduledRunQueue)[0]) && State() == Spec.TakeNext(old(State()))
    {
      var tick := scheduledRunQueue[0];
      scheduledRunQueue := scheduledRunQueue[1..];
      if !started || !enabled { return Dropped; }
      if orderSubmittedBatchKey == Some(tick.batchKey) {
        ApplyRunResult(tick.market, SkippedRun);
        return Deferred;
      }
      currentTick := Some(tick);
      turn := Admitted;
    }

    /** The admitted tick's run has come back, or has thrown. */
    method FinishTick(result: Option<RunResult>)
      requires currentTick.Some?
      modifies this`currentTick, this`orderSubmittedBatchKey
      ensures State() == Spec.FinishTick(old(State()), result)
    {
      if result.Some? && WasLiveOrderSubmitted(State(), result.value) {
        orderSubmittedBatchKey := Some(currentTick.value.batchKey);
      }
      currentTick := None;
    }
  }
}
