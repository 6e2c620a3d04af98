/**
 One live order per batch. The scheduler remembers one batch, that of the last live order. That is
 enough for a queue exactly when the ticks of each batch stand together in it.
 */
module SchedulerBatches {
  import opened Basics
  import opened S = Scheduler

  /** The batch of the i-th and the k-th tick is split by the j-th. */
  predicate Splits(ticks: seq<Tick>, i: int, j: int, k: int) {
    0 <= i < j < k < |ticks| && ticks[i].batchKey == ticks[k].batchKey != ticks[j].batchKey
  }

  /** The ticks of each batch stand together. */
  ghost predicate Grouped(ticks: seq<Tick>) {
    forall i, j, k :: !Splits(ticks, i, j, k)
  }

  ghost predicate Ascending(ticks: seq<Tick>) {
    forall i, j :: 0 <= i < j < |ticks| ==> ticks[i].batchKey <= ticks[j].batchKey
  }

  /** A live order of this batch has been submitted. */
  ghost predicate Submitted(done: seq<Done>, batchKey: int) {
    exists i :: 0 <= i < |done| && done[i].live && done[i].tick.batchKey == batchKey
  }

  /** No two live orders share a batch. */
  ghost predicate OnePerBatch(done: seq<Done>) {
    forall i, j :: 0 <= i < j < |done| && done[i].live && done[j].live ==> done[i].tick.batchKey != done[j].tick.batchKey
  }

  /** The n-th done tick is the last live one. */
  ghost predicate LastLive(done: seq<Done>, n: int) {
    0 <= n < |done| && done[n].live && forall m :: n < m < |done| ==> !done[m].live
  }

  /** The remembered key is that of the last live order. */
  ghost predicate Remembers(done: seq<Done>, key: Option<int>) {
    match key
    case None => forall i :: 0 <= i < |done| ==> !done[i].live
    case Some(batchKey) => exists n :: LastLive(done, n) && done[n].tick.batchKey == batchKey
  }

  /** An admitted tick lies in a batch without a live order. */
  ghost predicate CurrentIsFree(h: History) {
    h.scheduler.current.Some? ==> !Submitted(h.done, h.scheduler.current.value.batchKey)
  }

  ghost predicate BatchOk(h: History) {
    InOrder(h) && Remembers(h.done, h.scheduler.orderSubmittedBatchKey) && OnePerBatch(h.done) && CurrentIsFree(h)
  }

  // ---------------------------------------------------------------------------------------------
  // Grouped queues are safe
  // ---------------------------------------------------------------------------------------------

  /** The next tick of a queue, admitted or not yet. */
  ghost predicate IsNext(s: Scheduler, tick: Tick) {
    s.current == Some(tick) || (s.current.None? && s.queue != [] && s.queue[0] == tick)
  }

  /** What has been done stands before the next tick in the queue. */
  lemma DoneBefore(h: History, tick: Tick)
    requires InOrder(h) && IsNext(h.scheduler, tick)
    ensures |h.done| < |h.queued| && h.queued[|h.done|] == tick
    ensures forall i :: 0 <= i < |h.done| ==> h.queued[i] == h.done[i].tick
  {
  }

  lemma LiveIsRemembered(h: History, tick: Tick, i: nat)
    requires InOrder(h) && Remembers(h.done, h.scheduler.orderSubmittedBatchKey) && Grouped(h.queued) && IsNext(h.scheduler, tick)
    requires i < |h.done| && h.done[i].live && h.done[i].tick.batchKey == tick.batchKey
    ensures h.scheduler.orderSubmittedBatchKey == Some(tick.batchKey)
  {
    DoneBefore(h, tick);
    hide InOrder, IsNext;
    var n :| LastLive(h.done, n) && h.done[n].tick.batchKey == h.scheduler.orderSubmittedBatchKey.value;
    assert !Splits(h.queued, i, n, |h.done|);
  }

  /** In a grouped queue the one remembered key is as good as the set of all keys. */
  lemma RememberedIsEnough(h: History, tick: Tick)
    requires InOrder(h) && Remembers(h.done, h.scheduler.orderSubmittedBatchKey) && Grouped(h.queued) && IsNext(h.scheduler, tick)
    ensures h.scheduler.orderSubmittedBatchKey == Some(tick.batchKey) <==> Submitted(h.done, tick.batchKey)
  {
    hide InOrder, IsNext, Grouped;
    if Submitted(h.done, tick.batchKey) {
      var i :| 0 <= i < |h.done| && h.done[i].live && h.done[i].tick.batchKey == tick.batchKey;
      LiveIsRemembered(h, tick, i);
    }
  }

  /** What is done without a live order changes nothing about the batches. */
  lemma QuietDone(done: seq<Done>, d: Done, key: Option<int>)
    requires !d.live && Remembers(done, key) && OnePerBatch(done)
    ensures Remembers(done + [d], key) && OnePerBatch(done + [d])
    ensures forall batchKey :: Submitted(done + [d], batchKey) <==> Submitted(done, batchKey)
  {
    var more := done + [d];
    if key.Some? {
      var n :| LastLive(done, n) && done[n].tick.batchKey == key.value;
      assert LastLive(more, n) && more[n] == done[n];
    }
    forall batchKey ensures Submitted(more, batchKey) <==> Submitted(done, batchKey) {
      if i :| 0 <= i < |done| && done[i].live && done[i].tick.batchKey == batchKey { assert more[i] == done[i]; }
    }
  }

  lemma LiveDone(done: seq<Done>, d: Done)
    requires d.live && OnePerBatch(done) && !Submitted(done, d.tick.batchKey)
    ensures Remembers(done + [d], Some(d.tick.batchKey)) && OnePerBatch(done + [d])
  {
    var more := done + [d];
    assert LastLive(more, |done|) && more[|done|] == d;
    forall i, j | 0 <= i < j < |more| && more[i].live && more[j].live ensures more[i].tick.batchKey != more[j].tick.batchKey {
      assert more[i] == done[i];
    }
  }

  lemma TakeKept(h: History)
    requires BatchOk(h) && Grouped(h.queued) && Next(h, Take).Some?
    ensures BatchOk(Next(h, Take).value)
  {
    hide Apply, Under, InOrder, Lined, OnePerBatch, Submitted, Remembers, Grouped;
    var s := h.scheduler;
    var tick := s.queue[0];
    OrderKept(h, Take);
    QuietDone(h.done, Done(tick, TurnOf(s, tick), false), s.orderSubmittedBatchKey);
    RememberedIsEnough(h, tick);
  }

  lemma FinishKept(h: History, result: Option<RunResult>)
    requires BatchOk(h) && Next(h, Finish(result)).Some?
    ensures BatchOk(Next(h, Finish(result)).value)
  {
    hide InOrder, Lined, OnePerBatch, Submitted, Remembers, WasLiveOrderSubmitted;
    var s := h.scheduler;
    var d := Done(s.current.value, Admitted, result.Some? && WasLiveOrderSubmitted(s, result.value));
    OrderKept(h, Finish(result));
    if d.live { LiveDone(h.done, d); } else { QuietDone(h.done, d, s.orderSubmittedBatchKey); }
  }

  lemma BatchKept(h: History, step: Step)
    requires BatchOk(h) && Next(h, step).Some? && Grouped(Next(h, step).value.queued)
    ensures BatchOk(Next(h, step).value)
  {
    hide InOrder, Lined, OnePerBatch, Submitted, Remembers, Grouped, Apply, Enter, AllIdle, Under, TakeNext, FinishTick;
    match step {
      case Take => TakeKept(h);
      case Finish(result) => FinishKept(h, result);
      case _ => OrderKept(h, step);
    }
  }

  lemma QueuedGrows(h: History, step: Step)
    requires Next(h, step).Some?
    ensures h.queued <= Next(h, step).value.queued
  {
    hide Apply, Enter, AllIdle, Under, TakeNext;
  }

  lemma GroupedPrefix(ticks: seq<Tick>, more: seq<Tick>)
    requires Grouped(more) && ticks <= more
    ensures Grouped(ticks)
  {
    forall i, j, k ensures !Splits(ticks, i, j, k) { assert !Splits(more, i, j, k); }
  }

  lemma {:induction false} RunKept(h: History, steps: seq<Step>)
    requires Initial(h) && Run(h, steps).Some? && Grouped(Run(h, steps).value.queued)
    ensures BatchOk(Run(h, steps).value)
  {
    hide Next, BatchOk, Grouped;
    if steps == [] {
      InitialBatchOk(h);
    } else {
      var before := Run(h, steps[..|steps| - 1]).value;
      QueuedGrows(before, steps[|steps| - 1]);
      GroupedPrefix(before.queued, Run(h, steps).value.queued);
      RunKept(h, steps[..|steps| - 1]);
      BatchKept(before, steps[|steps| - 1]);
    }
  }

  lemma InitialBatchOk(h: History)
    requires Initial(h)
    ensures BatchOk(h)
  {
  }

  // ---------------------------------------------------------------------------------------------
  // Queues that are not grouped are not safe
  // ---------------------------------------------------------------------------------------------

  const SENT := RunResult(Completed, Some("order"), Some(true))

  /** A scheduler that sends live orders, started and idle. */
  function Ready(): History {
    History(Scheduler(true, true, true, false, map[], [], None, None), [], [], map[], [])
  }

  /** One more tick, queued, taken and done; it sends an order if it should and may. */
  lemma OneTick(steps: seq<Step>, tick: Tick, send: bool) returns (more: seq<Step>)
    requires Run(Ready(), steps).Some?
    requires var s := Run(Ready(), steps).value.scheduler; s == Ready().scheduler.(orderSubmittedBatchKey := s.orderSubmittedBatchKey)
    ensures Run(Ready(), more).Some?
    ensures var before, after := Run(Ready(), steps).value, Run(Ready(), more).value;
            var live := send && before.scheduler.orderSubmittedBatchKey != Some(tick.batchKey);
            after.queued == before.queued + [tick] && |after.done| == |before.done| + 1 && before.done <= after.done &&
            after.done[|before.done|].tick == tick && after.done[|before.done|].live == live &&
            after.scheduler == if live then before.scheduler.(orderSubmittedBatchKey := Some(tick.batchKey)) else before.scheduler
  {
    hide Enter, AllIdle, Under, Run;
    RunSnoc(Ready(), steps, Fire(tick));
    RunSnoc(Ready(), steps + [Fire(tick)], Take);
    if Run(Ready(), steps).value.scheduler.orderSubmittedBatchKey == Some(tick.batchKey) {
      more := steps + [Fire(tick)] + [Take];
    } else {
      RunSnoc(Ready(), steps + [Fire(tick)] + [Take], Finish(if send then Some(SENT) else None));
      more := steps + [Fire(tick)] + [Take] + [Finish(if send then Some(SENT) else None)];
    }
  }

  /** The batch remembered after n ticks of which i, j and k have been told to send. */
  function RememberedAfter(ticks: seq<Tick>, i: nat, j: nat, k: nat, n: nat): Option<int>
    requires i < j < k < |ticks|
  {
    if n <= i then None else if n <= j then Some(ticks[i].batchKey) else if n <= k then Some(ticks[j].batchKey) else Some(ticks[k].batchKey)
  }

  /** All ticks are queued and done in turn; only i, j and k send. */
  lemma {:induction false} ThreeSend(ticks: seq<Tick>, i: nat, j: nat, k: nat, n: nat) returns (steps: seq<Step>)
    requires i < j < k < |ticks| && n <= |ticks| && ticks[i].batchKey == ticks[k].batchKey != ticks[j].batchKey
    ensures Run(Ready(), steps).Some?
    ensures var x := Run(Ready(), steps).value;
            x.scheduler == Ready().scheduler.(orderSubmittedBatchKey := RememberedAfter(ticks, i, j, k, n)) &&
            x.queued == ticks[..n] && |x.done| == n && forall m :: 0 <= m < n ==> x.done[m].tick == ticks[m] && (m == i || m == k ==> x.done[m].live)
    decreases n
  {
    hide Run, Next;
    if n == 0 {
      steps := [];
      RunEmpty(Ready());
    } else {
      var front := ThreeSend(ticks, i, j, k, n - 1);
      steps := OneTick(front, ticks[n - 1], n - 1 == i || n - 1 == j || n - 1 == k);
      var before, x := Run(Ready(), front).value, Run(Ready(), steps).value;
      assert x.done[..n - 1] == before.done;
      assert forall m :: 0 <= m < n - 1 ==> x.done[m] == before.done[m];
      assert ticks[..n] == ticks[..n - 1] + [ticks[n - 1]];
    }
  }

  lemma RunEmpty(h: History)
    ensures Run(h, []) == Some(h)
  {
  }

  /** A run over this queue that submits two live orders in one batch. */
  ghost predicate Unsafe(ticks: seq<Tick>) {
    exists h, steps :: Initial(h) && Run(h, steps).Some? && Run(h, steps).value.queued == ticks && !OnePerBatch(Run(h, steps).value.done)
  }

  lemma SplitBatchSubmitsTwice(ticks: seq<Tick>, i: int, j: int, k: int)
    requires Splits(ticks, i, j, k)
    ensures Unsafe(ticks)
  {
    hide Run, RememberedAfter;
    var steps := ThreeSend(ticks, i, j, k, |ticks|);
    assert ticks[..|ticks|] == ticks;
    assert Initial(Ready());
    var done := Run(Ready(), steps).value.done;
    assert done[i].live && done[k].live && done[i].tick.batchKey == done[k].tick.batchKey;
  }

  // ---------------------------------------------------------------------------------------------
  // Main results
  // ---------------------------------------------------------------------------------------------

  lemma GroupedIsSafe(ticks: seq<Tick>)
    requires Grouped(ticks)
    ensures !Unsafe(ticks)
  {
    hide Run, Initial, OnePerBatch, Grouped, Next;
    if Unsafe(ticks) {
      var h, steps :| Initial(h) && Run(h, steps).Some? && Run(h, steps).value.queued == ticks && !OnePerBatch(Run(h, steps).value.done);
      RunKept(h, steps);
      assert false;
    }
  }

  /** Whatever the interleaving, a queue never submits two live orders in one batch exactly when the ticks of each batch stand together in it. */
  lemma OneLiveOrderPerBatchIff(ticks: seq<Tick>)
    ensures Grouped(ticks) <==> !Unsafe(ticks)
  {
    hide Unsafe, Splits;
    if Grouped(ticks) {
      GroupedIsSafe(ticks);
    } else {
      var i, j, k :| Splits(ticks, i, j, k);
      SplitBatchSubmitsTwice(ticks, i, j, k);
    }
  }

  /** Ticks queued in the order of their batches are grouped, so each later live order has a later batch. */
  lemma OneLiveOrderPerBatch(h: History, steps: seq<Step>, i: nat, j: nat)
    requires Initial(h) && Run(h, steps).Some? && Ascending(Run(h, steps).value.queued)
    requires i < j < |Run(h, steps).value.done| && Run(h, steps).value.done[i].live && Run(h, steps).value.done[j].live
    ensures Run(h, steps).value.done[i].tick.batchKey < Run(h, steps).value.done[j].tick.batchKey
  {
    hide Run, Initial;
    var x := Run(h, steps).value;
    assert Grouped(x.queued);
    RunKept(h, steps);
    OrderOfDone(x, i, j);
  }

  lemma OrderOfDone(x: History, i: nat, j: nat)
    requires BatchOk(x) && Ascending(x.queued) && i < j < |x.done| && x.done[i].live && x.done[j].live
    ensures x.done[i].tick.batchKey < x.done[j].tick.batchKey
  {
    assert x.queued[i] == x.done[i].tick && x.queued[j] == x.done[j].tick;
  }

  /** A queue need not ascend to be safe. */
  lemma DescendingIsSafe()
    ensures var ticks := [Tick("KRW-BTC", 2000), Tick("KRW-ETH", 1000), Tick("KRW-BTC", 1000)]; !Ascending(ticks) && !Unsafe(ticks)
  {
    hide Unsafe;
    var ticks := [Tick("KRW-BTC", 2000), Tick("KRW-ETH", 1000), Tick("KRW-BTC", 1000)];
    assert ticks[0].batchKey > ticks[1].batchKey;
    OneLiveOrderPerBatchIff(ticks);
  }
}
