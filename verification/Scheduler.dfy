/**
 The strategy scheduler: ticks of all markets queue up and run one at a time, and a single remembered
 batch key keeps a second live order out of the same one-second batch. Manual runs of a market may
 start at any time beside the queue.

 The functions say what happens between two awaits; the class carries them out.
 */
module Scheduler {
  import opened Basics

  type Market = string

  datatype RunStatus = Completed | AlreadyRunning | SkippedRun | FailedRun

  datatype RunResult = RunResult(status: RunStatus, orderId: Option<string>, submissionAccepted: Option<bool>)

  datatype MarketStatus = MarketStatus(running: bool, runCount: nat, successCount: nat, failureCount: nat, skippedCount: nat)

  const IDLE := MarketStatus(false, 0, 0, 0, 0)

  /** A timer has fired: the market to run and the batch its time fell in. */
  datatype Tick = Tick(market: Market, batchKey: int)

  datatype Scheduler = Scheduler(
    enabled: bool,
    liveAdapter: bool,
    started: bool,
    stopBegun: bool,
    statuses: map<Market, MarketStatus>,
    queue: seq<Tick>,
    current: Option<Tick>,
    orderSubmittedBatchKey: Option<int>)

  const GRANULARITY_MS := 1000

  /** The instant, rounded down to a full second. */
  function BatchKey(at: int): int { at / GRANULARITY_MS * GRANULARITY_MS }

  /** The key of a batch is a full second, the one the instant lies in; later instants never have an earlier batch. */
  lemma BatchKeyGroups(a: int, b: int)
    ensures BatchKey(a) % 1000 == 0 && BatchKey(a) <= a < BatchKey(a) + 1000
    ensures a <= b ==> BatchKey(a) <= BatchKey(b)
    ensures BatchKey(a) == BatchKey(b) <==> a / 1000 == b / 1000
  {
  }

  predicate IsSkip(status: RunStatus) { status == AlreadyRunning || status == SkippedRun }

  /** applyRunResult; a market that is not configured is ignored. */
  function Apply(statuses: map<Market, MarketStatus>, market: Market, status: RunStatus): map<Market, MarketStatus> {
    if market !in statuses then statuses
    else
      var m := statuses[market];
      statuses[market := MarketStatus(
        false,
        m.runCount + (if IsSkip(status) then 0 else 1),
        m.successCount + (if status == Completed then 1 else 0),
        m.failureCount + (if status != Completed && !IsSkip(status) then 1 else 0),
        m.skippedCount + (if IsSkip(status) then 1 else 0))]
  }

  /** The start of a run: a market that is already running only counts a skip. */
  function Enter(statuses: map<Market, MarketStatus>, market: Market): map<Market, MarketStatus>
    requires market in statuses
  {
    var m := statuses[market];
    if m.running then statuses[market := m.(skippedCount := m.skippedCount + 1)]
    else statuses[market := m.(running := true)]
  }

  datatype RunAnswer = Refused | Unsupported | Skipped | Begun

  /** runMarketNow and executeMarketNow up to the first await. */
  function RunNow(s: Scheduler, market: Market): (Scheduler, RunAnswer) {
    if s.stopBegun then (s, Refused)
    else if market !in s.statuses then (s, Unsupported)
    else (s.(statuses := Enter(s.statuses, market)), if s.statuses[market].running then Skipped else Begun)
  }

  predicate WasLiveOrderSubmitted(s: Scheduler, r: RunResult) {
    s.liveAdapter && r.status == Completed && r.orderId.Some? && r.orderId.value != "" && r.submissionAccepted == Some(true)
  }

  function Enqueue(s: Scheduler, tick: Tick): Scheduler { s.(queue := s.queue + [tick]) }

  datatype Turn = Dropped | Deferred | Admitted

  /** What becomes of the next tick when its turn comes. */
  function TurnOf(s: Scheduler, tick: Tick): Turn {
    if !s.started || !s.enabled then Dropped
    else if s.orderSubmittedBatchKey == Some(tick.batchKey) then Deferred
    else Admitted
  }

  function TakeNext(s: Scheduler): Scheduler
    requires s.current.None? && s.queue != []
  {
    var tick := s.queue[0];
    var rest := s.(queue := s.queue[1..]);
    match TurnOf(s, tick)
    case Dropped => rest
    case Deferred => rest.(statuses := Apply(s.statuses, tick.market, SkippedRun))
    case Admitted => rest.(current := Some(tick))
  }

  /** The admitted tick has its result, or None if its run threw. */
  function FinishTick(s: Scheduler, result: Option<RunResult>): Scheduler
    requires s.current.Some?
  {
    var done := s.(current := None);
    if result.Some? && WasLiveOrderSubmitted(s, result.value) then done.(orderSubmittedBatchKey := Some(s.current.value.batchKey)) else done
  }

  function AllIdle(statuses: map<Market, MarketStatus>): map<Market, MarketStatus> {
    map m | m in statuses :: statuses[m].(running := false)
  }

  /** start: None if it throws. A blocking preflight marks every market idle instead. */
  function Start(s: Scheduler, blocked: bool): Option<Scheduler> {
    if s.stopBegun then None
    else if !s.enabled || s.started then Some(s)
    else if blocked then Some(s.(statuses := AllIdle(s.statuses)))
    else Some(s.(started := true))
  }

  function Stop(s: Scheduler): Scheduler { s.(stopBegun := true, started := false) }

  // ---------------------------------------------------------------------------------------------
  // Runs
  // ---------------------------------------------------------------------------------------------

  /** What a tick came to; `live` tells that it submitted a live order. */
  datatype Done = Done(tick: Tick, turn: Turn, live: bool)

  /** A scheduler, with what has been queued and done, and the runs of each market that are under way. */
  datatype History = History(
    scheduler: Scheduler,
    queued: seq<Tick>,
    done: seq<Done>,
    underWay: map<Market, nat>,
    results: seq<(Market, RunStatus)>)

  datatype Step =
    | Fire(tick: Tick)
    | Take
    | Finish(result: Option<RunResult>)
    | BeginRun(market: Market)
    | EndRun(market: Market, status: RunStatus)
    | AbortRun(market: Market)
    | StartAll(blocked: bool)
    | StopAll

  function Under(h: History, market: Market): nat {
    if market in h.underWay then h.underWay[market] else 0
  }

  function Next(h: History, step: Step): Option<History> {
    var s := h.scheduler;
    match step
    case Fire(tick) => Some(h.(scheduler := Enqueue(s, tick), queued := h.queued + [tick]))
    case Take =>
      if s.current.Some? || s.queue == [] then None
      else
        var tick := s.queue[0];
        var turn := TurnOf(s, tick);
        var taken := h.(scheduler := TakeNext(s));
        if turn == Admitted then Some(taken)
        else if turn == Dropped then Some(taken.(done := h.done + [Done(tick, turn, false)]))
        else Some(taken.(done := h.done + [Done(tick, turn, false)],
                         results := h.results + [(tick.market, SkippedRun)]))
    case Finish(result) =>
      if s.current.None? then None
      else Some(h.(scheduler := FinishTick(s, result),
                   done := h.done + [Done(s.current.value, Admitted, result.Some? && WasLiveOrderSubmitted(s, result.value))]))
    case BeginRun(market) =>
      var (x, answer) := RunNow(s, market);
      if answer == Begun then Some(h.(scheduler := x, underWay := h.underWay[market := Under(h, market) + 1]))
      else if answer == Skipped then Some(h.(scheduler := x, results := h.results + [(market, AlreadyRunning)]))
      else None
    case EndRun(market, status) =>
      if market !in s.statuses || Under(h, market) == 0 then None
      else Some(h.(scheduler := s.(statuses := Apply(s.statuses, market, status)), underWay := h.underWay[market := Under(h, market) - 1],
                   results := h.results + [(market, status)]))
    case AbortRun(market) =>
      if Under(h, market) == 0 then None else Some(h.(underWay := h.underWay[market := Under(h, market) - 1]))
    case StartAll(blocked) =>
      var started := Start(s, blocked);
      if started.Some? then Some(h.(scheduler := started.value)) else None
    case StopAll => Some(h.(scheduler := Stop(s)))
  }

  function Run(h: History, steps: seq<Step>): Option<History> {
    if steps == [] then Some(h)
    else
      var before :- Run(h, steps[..|steps| - 1]);
      Next(before, steps[|steps| - 1])
  }

  /** A scheduler with nothing to do, started or not. */
  predicate Initial(h: History) {
    var s := h.scheduler;
    s.queue == [] && s.current == None && s.orderSubmittedBatchKey == None && !s.stopBegun &&
    (forall m :: m in s.statuses ==> s.statuses[m] == IDLE) &&
    h.queued == [] && h.done == [] && h.underWay == map[] && h.results == []
  }

  // ---------------------------------------------------------------------------------------------
  // Ticks in order
  // ---------------------------------------------------------------------------------------------

  function Ticks(done: seq<Done>): (r: seq<Tick>)
    ensures |r| == |done| && forall i :: 0 <= i < |r| ==> r[i] == done[i].tick
  {
    seq(|done|, i requires 0 <= i < |done| => done[i].tick)
  }

  /** Every tick is done once, in the order in which it was queued. */
  ghost predicate InOrder(h: History) {
    Lined(h.queued, h.done, h.scheduler.current, h.scheduler.queue)
  }

  lemma TicksGrow(done: seq<Done>, d: Done)
    ensures Ticks(done + [d]) == Ticks(done) + [d.tick]
  {
  }

  /** The part of a history that the order speaks of. */
  ghost predicate Lined(queued: seq<Tick>, done: seq<Done>, current: Option<Tick>, queue: seq<Tick>) {
    queued == Ticks(done) + (if current.Some? then [current.value] else []) + queue
  }

  lemma TakeLined(queued: seq<Tick>, done: seq<Done>, queue: seq<Tick>, d: Done)
    requires queue != [] && d.tick == queue[0] && Lined(queued, done, None, queue)
    ensures Lined(queued, done + [d], None, queue[1..]) && Lined(queued, done, Some(queue[0]), queue[1..])
  {
    TicksGrow(done, d);
    assert queue == [queue[0]] + queue[1..];
  }

  lemma OrderKept(h: History, step: Step)
    requires InOrder(h) && Next(h, step).Some?
    ensures InOrder(Next(h, step).value)
  {
    hide Apply, Enter, Under, WasLiveOrderSubmitted, Ticks, TurnOf;
    var s := h.scheduler;
    if step.Take? {
      TakeLined(h.queued, h.done, s.queue, Done(s.queue[0], TurnOf(s, s.queue[0]), false));
    } else if step.Finish? {
      TicksGrow(h.done, Done(s.current.value, Admitted, step.result.Some? && WasLiveOrderSubmitted(s, step.result.value)));
    }
  }

  lemma InitialInOrder(h: History)
    requires Initial(h)
    ensures InOrder(h)
  {
  }

  lemma {:induction false} FirstInFirstOut(h: History, steps: seq<Step>)
    requires Initial(h) && Run(h, steps).Some?
    ensures InOrder(Run(h, steps).value)
  {
    hide Next, InOrder;
    if steps == [] {
      InitialInOrder(h);
    } else {
      FirstInFirstOut(h, steps[..|steps| - 1]);
      OrderKept(Run(h, steps[..|steps| - 1]).value, steps[|steps| - 1]);
    }
  }

  lemma RunSnoc(h: History, steps: seq<Step>, step: Step)
    requires Run(h, steps).Some?
    ensures Run(h, steps + [step]) == Next(Run(h, steps).value, step)
  {
    hide Next;
    assert (steps + [step])[..|steps|] == steps;
  }

  // ---------------------------------------------------------------------------------------------
  // What becomes of a tick and of a run
  // ---------------------------------------------------------------------------------------------

  /** The next tick is admitted exactly while the scheduler is enabled and started and has not remembered the tick's batch; it is skipped in that batch, and dropped otherwise. */
  lemma TurnIs(h: History)
    requires h.scheduler.current.None? && h.scheduler.queue != []
    ensures Next(h, Take).Some?
    ensures var s, x, tick := h.scheduler, Next(h, Take).value, h.scheduler.queue[0];
            x.scheduler.queue == s.queue[1..] && x.scheduler.orderSubmittedBatchKey == s.orderSubmittedBatchKey &&
            (x.scheduler.current == Some(tick) <==> s.enabled && s.started && s.orderSubmittedBatchKey != Some(tick.batchKey)) &&
            (x.scheduler.current == Some(tick) ==> x.done == h.done && x.results == h.results && x.scheduler.statuses == s.statuses) &&
            (x.scheduler.current != Some(tick) ==>
               x.scheduler.current.None? && |x.done| == |h.done| + 1 && x.done[|h.done|].tick == tick && !x.done[|h.done|].live &&
               x.results == h.results + if s.enabled && s.started then [(tick.market, SkippedRun)] else [])
  {
    hide Apply;
  }

  /** An admitted tick counts as live, and its batch is remembered, exactly if its run completed with an accepted order of a live adapter. */
  lemma LiveIff(h: History, result: Option<RunResult>)
    requires h.scheduler.current.Some?
    ensures Next(h, Finish(result)).Some?
    ensures var s, x := h.scheduler, Next(h, Finish(result)).value;
            var live := s.liveAdapter && result.Some? && result.value.status == Completed && result.value.orderId.Some? && result.value.orderId.value != "" &&
                        result.value.submissionAccepted == Some(true);
            x.done == h.done + [Done(s.current.value, Admitted, live)] && x.scheduler.current.None? &&
            x.scheduler.orderSubmittedBatchKey == if live then Some(s.current.value.batchKey) else s.orderSubmittedBatchKey
  {
  }

  /** A run asked for by hand begins exactly for a configured market that is not marked running, before any stop. */
  lemma RunBeginsIff(s: Scheduler, market: Market)
    ensures RunNow(s, market).1 ==
              if s.stopBegun then Refused else if market !in s.statuses then Unsupported else if s.statuses[market].running then Skipped else Begun
    ensures RunNow(s, market).1 in {Refused, Unsupported} ==> RunNow(s, market).0 == s
    ensures RunNow(s, market).1 == Begun ==> RunNow(s, market).0 == s.(statuses := s.statuses[market := s.statuses[market].(running := true)])
    ensures RunNow(s, market).1 == Skipped ==>
              RunNow(s, market).0 == s.(statuses := s.statuses[market := s.statuses[market].(skippedCount := s.statuses[market].skippedCount + 1)])
  {
  }

  // ---------------------------------------------------------------------------------------------
  // After a stop
  // ---------------------------------------------------------------------------------------------

  /** A stop has begun, and nothing can start the scheduler again. */
  predicate Stopped(s: Scheduler) { s.stopBegun && !s.started }

  lemma StoppedStep(h: History, step: Step)
    requires Stopped(h.scheduler) && Next(h, step).Some?
    ensures var x := Next(h, step).value;
            Stopped(x.scheduler) && (forall m :: Under(x, m) <= Under(h, m)) &&
            ((x.done == h.done && x.scheduler.current == h.scheduler.current) ||
             (x.scheduler.current.None? && |x.done| == |h.done| + 1 && h.done <= x.done &&
              var d := x.done[|h.done|];
              if h.scheduler.current.Some? then d.tick == h.scheduler.current.value && d.turn == Admitted else d.turn == Dropped))
  {
    hide Apply, Enter, AllIdle, WasLiveOrderSubmitted;
    var s := h.scheduler;
    if step.Take? {
      assert Next(h, step).value.done == h.done + [Done(s.queue[0], Dropped, false)];
    } else if step.Finish? {
      assert Next(h, step).value.done == h.done + [Done(s.current.value, Admitted, step.result.Some? && WasLiveOrderSubmitted(s, step.result.value))];
    }
  }

  /**
   From a stop on no tick is admitted and no run begins, whatever happens: what is done afterwards is
   dropped, but for the tick that was current at the stop.
   */
  lemma {:induction false} NothingAdmittedAfterStop(h: History, steps: seq<Step>)
    requires Stopped(h.scheduler) && Run(h, steps).Some?
    ensures var x := Run(h, steps).value;
            Stopped(x.scheduler) && h.done <= x.done && (forall m :: Under(x, m) <= Under(h, m)) &&
            (|x.done| == |h.done| ==> x.scheduler.current == h.scheduler.current) &&
            (|x.done| > |h.done| ==> x.scheduler.current.None?) &&
            forall i :: |h.done| <= i < |x.done| ==>
              if i == |h.done| && h.scheduler.current.Some? then x.done[i].tick == h.scheduler.current.value && x.done[i].turn == Admitted
              else x.done[i].turn == Dropped
  {
    hide Next, Under;
    if steps != [] {
      NothingAdmittedAfterStop(h, steps[..|steps| - 1]);
      StoppedStep(Run(h, steps[..|steps| - 1]).value, steps[|steps| - 1]);
    }
  }

  /** What has not been admitted submits no live order. */
  lemma {:induction false} LiveIsAdmitted(h: History, steps: seq<Step>)
    requires Initial(h) && Run(h, steps).Some?
    ensures forall d :: d in Run(h, steps).value.done && d.live ==> d.turn == Admitted
  {
    if steps != [] {
      hide Initial, Apply, Enter, AllIdle, Under, WasLiveOrderSubmitted;
      LiveIsAdmitted(h, steps[..|steps| - 1]);
    }
  }

  lemma StopStops(h: History)
    ensures Next(h, StopAll).Some? && Stopped(Next(h, StopAll).value.scheduler) && Next(h, StopAll).value.done == h.done
  {
  }
}
